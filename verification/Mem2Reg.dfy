/** The Mem2Reg pass for one function: phi placement, then renaming along the dominator tree. */
module Mem2Reg {
  import opened ControlFlow
  import opened DominatorTree
  import opened Ir
  import opened Promotion
  import opened PromotionMeaning
  import opened PhiPlacement
  import opened Renaming

  // ----- Phi placement -----

  /** Block b has an empty phi for each variable placed in it, and for no other, once. */
  ghost predicate EmptyPhis(phis: seq<Phi>, b: Block, has: Placement) {
    && Distinct(phis)
    && (forall k :: 0 <= k < |phis| ==>
          phis[k].pairs == [] && phis[k].dst.PhiName? && phis[k].dst.block == b && (b, phis[k].dst.slot) in has)
    && (forall x :: (b, x) in has ==> HasPhiNamed(phis, PhiName(b, x)))
  }

  /** Only phis have been added to the function. */
  ghost predicate PhisPlaced(orig: seq<BasicBlock>, blocks: seq<BasicBlock>, has: Placement) {
    && |blocks| == |orig|
    && (forall b :: 0 <= b < |blocks| ==> blocks[b].body == orig[b].body && blocks[b].term == orig[b].term)
    && (forall b :: 0 <= b < |blocks| ==> EmptyPhis(blocks[b].phis, b, has))
  }

  ghost predicate Phi2Val(phi2val: map<Name, Name>, has: Placement) {
    forall b: Block, x: Name :: (b, x) in has ==> PhiName(b, x) in phi2val && phi2val[PhiName(b, x)] == x
  }

  function AddPhi(blocks: seq<BasicBlock>, b: Block, x: Name): seq<BasicBlock>
    requires b < |blocks|
  {
    blocks[b := blocks[b].(phis := [Phi(PhiName(b, x), [])] + blocks[b].phis)]
  }

  lemma AddPhiPlaced(orig: seq<BasicBlock>, blocks: seq<BasicBlock>, has: Placement, b: Block, x: Name)
    requires PhisPlaced(orig, blocks, has) && b < |blocks| && (b, x) !in has
    ensures PhisPlaced(orig, AddPhi(blocks, b, x), has + {(b, x)})
  {
    var has' := has + {(b, x)};
    var blocks' := AddPhi(blocks, b, x);
    forall c | 0 <= c < |blocks'|
      ensures EmptyPhis(blocks'[c].phis, c, has')
    {
      assert EmptyPhis(blocks[c].phis, c, has);
      if c == b {
        AddPhiFront(blocks[b].phis, b, has, x);
      }
    }
  }

  lemma AddPhiFront(phis: seq<Phi>, b: Block, has: Placement, x: Name)
    requires EmptyPhis(phis, b, has) && (b, x) !in has
    ensures EmptyPhis([Phi(PhiName(b, x), [])] + phis, b, has + {(b, x)})
  {
    var phis' := [Phi(PhiName(b, x), [])] + phis;
    forall k | 0 <= k < |phis'|
      ensures phis'[k].pairs == [] && phis'[k].dst.PhiName? && phis'[k].dst.block == b
              && (b, phis'[k].dst.slot) in has + {(b, x)}
    {
      assert k > 0 ==> phis'[k] == phis[k - 1];
    }
    forall y | (b, y) in has + {(b, x)}
      ensures HasPhiNamed(phis', PhiName(b, y))
    {
      if y == x {
        assert phis'[0].dst == PhiName(b, x);
      } else {
        assert HasPhiNamed(phis, PhiName(b, y));
        var k :| 0 <= k < |phis| && phis[k].dst == PhiName(b, y);
        assert phis'[k + 1].dst == PhiName(b, y);
      }
    }
    forall j, k | 0 <= j < k < |phis'|
      ensures phis'[j].dst != phis'[k].dst
    {
      assert phis'[k] == phis[k - 1];
      assert j > 0 ==> phis'[j] == phis[j - 1];
    }
  }

  /** The blocks given a phi for x. */
  ghost function BlocksWith(has: Placement, x: Name): set<Block> {
    set p | p in has && p.1 == x :: p.0
  }

  lemma BlocksWithAdd(has: Placement, b: Block, x: Name, y: Name)
    ensures BlocksWith(has + {(b, x)}, y) == if y == x then BlocksWith(has, y) + {b} else BlocksWith(has, y)
    ensures b in BlocksWith(has, x) <==> (b, x) in has
  {
    forall c | c in BlocksWith(has, x)
      ensures (c, x) in has
    {
    }
    if y == x {
      assert (b, x) in has + {(b, x)};
      assert b in BlocksWith(has + {(b, x)}, x);
      forall c | c in BlocksWith(has, x)
        ensures c in BlocksWith(has + {(b, x)}, x)
      {
        assert (c, x) in has + {(b, x)};
      }
    } else {
      forall c | c in BlocksWith(has, y)
        ensures c in BlocksWith(has + {(b, x)}, y)
      {
        assert (c, y) in has + {(b, x)};
      }
    }
  }

  /** Which variables have been collected, and the blocks that store to them, after the first
      `i` instructions of block `b` and all instructions of earlier blocks. */
  ghost predicate Collected(blocks: seq<BasicBlock>, allocas: set<Name>, globals: set<Name>,
                            global2bb: map<Name, set<Block>>, b: nat, i: nat) {
    && (forall x :: x in globals <==> x in global2bb)
    && (forall x :: x in globals ==> x in allocas && global2bb[x] != {})
    && (forall x, c {:trigger Filed(global2bb, x, c)} ::
      Filed(global2bb, x, c) <==> StoredSoFar(blocks, allocas, b, i, x, c))
  }

  predicate Filed(global2bb: map<Name, set<Block>>, x: Name, c: Block) {
    x in global2bb && c in global2bb[x]
  }

  ghost predicate StoredSoFar(blocks: seq<BasicBlock>, allocas: set<Name>, b: nat, i: nat, x: Name, c: Block) {
    && x in allocas && c < |blocks|
    && if c < b then Stores(blocks, c, x)
       else c == b && i <= |blocks[c].body| && LastStore(blocks[c].body, i, x).Some?
  }

  class Pass {
    const g: Graph
    const geps: set<Name>                  // what the dynamic cast to GetElementPtrInst recognises
    const frontier: Frontiers
    const children: map<Block, set<Block>>
    var blocks: seq<BasicBlock>
    var valStack: Stacks
    var phi2val: map<Name, Name>
    // How the text of the function has changed since phi placement.
    ghost var subst: Operand -> Operand    // all replacements made so far
    ghost var done: set<Name>              // the loads whose uses have been replaced
    ghost var entered: set<Block>          // blocks whose instructions have been renamed
    ghost var finished: set<Block>         // blocks whose stores have been deleted as well

    constructor (g: Graph, geps: set<Name>, frontier: Frontiers, children: map<Block, set<Block>>,
        blocks: seq<BasicBlock>)
      ensures this.g == g && this.geps == geps && this.frontier == frontier && this.children == children
      ensures this.blocks == blocks && valStack == map[] && phi2val == map[]
      ensures done == {} && entered == {} && finished == {} && forall o :: subst(o) == o
    {
      this.g, this.geps, this.frontier, this.children := g, geps, frontier, children;
      this.blocks := blocks;
      valStack, phi2val := map[], map[];
      subst := o => o;
      done, entered, finished := {}, {}, {};
    }

    /** Step 1: the variables stored to and the blocks that do so. */
    method CollectStores(ghost allocas: set<Name>) returns (globals: set<Name>, global2bb: map<Name, set<Block>>)
      requires forall b, i :: 0 <= b < |blocks| && 0 <= i < |blocks[b].body| && blocks[b].body[i].Store? ==>
                 (IsValidPtr(geps, blocks[b].body[i].ptr) <==> IsSlot(allocas, blocks[b].body[i].ptr))
      ensures Collected(blocks, allocas, globals, global2bb, |blocks|, 0)
    {
      globals, global2bb := {}, map[];
      for b := 0 to |blocks|
        invariant Collected(blocks, allocas, globals, global2bb, b, 0)
      {
        var body := blocks[b].body;
        for i := 0 to |body|
          invariant Collected(blocks, allocas, globals, global2bb, b, i)
        {
          var ins := body[i];
          if ins.Store? && IsValidPtr(geps, ins.ptr) {
            var x := ins.ptr.name;
            CollectStore(blocks, allocas, globals, global2bb, b, i, x);
            globals := globals + {x};
            global2bb := global2bb[x := (if x in global2bb then global2bb[x] else {}) + {b}];
          } else {
            CollectOther(blocks, allocas, globals, global2bb, b, i);
          }
        }
        CollectBlock(blocks, allocas, globals, global2bb, b);
      }
    }

    /** `worklist.assign`: the elements of a set in some order. */
    static method ToSeq(s: set<Block>) returns (q: seq<Block>)
      ensures forall b :: b in q <==> b in s
    {
      q := [];
      var rest := s;
      while rest != {}
        invariant rest <= s && forall b :: b in q <==> b in s && b !in rest
        decreases rest
      {
        var b :| b in rest;
        q := q + [b];
        rest := rest - {b};
      }
    }

    /** Step 2 for one variable: the growing worklist over dominance frontiers. */
    method PlacePhis(x: Name, stores: set<Block>, has0: Placement, ghost orig: seq<BasicBlock>) returns (has: Placement)
      requires PhisPlaced(orig, blocks, has0) && Phi2Val(phi2val, has0) && FrontiersInside(frontier, |orig|)
      requires BlocksWith(has0, x) == {} && forall c :: c in stores <==> Stores(orig, c, x)
      modifies this`blocks, this`phi2val
      ensures PhisPlaced(orig, blocks, has) && Phi2Val(phi2val, has)
      ensures LeastFor(orig, frontier, x, BlocksWith(has, x))
      ensures forall y :: y != x ==> BlocksWith(has, y) == BlocksWith(has0, y)
    {
      hide *;
      has := has0;
      var work := ToSeq(stores);
      PlaceBegin(orig, blocks, phi2val, frontier, x, stores, work, has);
      var i := 0;
      while i < |work|
        invariant i <= |work|
        invariant PlaceState(orig, blocks, phi2val, frontier, x, work, i, has, has0)
        decreases Blocks(|orig|) - BlocksWith(has, x), |work| - i
      {
        ghost var work1, has1 := work, has;
        PlaceIn(orig, blocks, phi2val, frontier, x, work, i, has, has0);
        var rest := frontier[work[i]];
        while rest != {}
          invariant i < |work|
          invariant PlaceStep(orig, blocks, phi2val, frontier, x, work, i, has, has0, rest)
          invariant Grown(orig, x, has1, has) && (has == has1 ==> work == work1)
          decreases rest
        {
          var f :| f in rest;
          PlaceFacts(orig, blocks, phi2val, frontier, x, work, i, has, has0, rest, f);
          if (f, x) !in has {
            PlaceNew(orig, blocks, phi2val, frontier, x, work, i, has, has0, rest, f);
            GrownNew(orig, x, has1, has, f);
            blocks := AddPhi(blocks, f, x);
            phi2val := phi2val[PhiName(f, x) := x];
            work := work + [f];
            has := has + {(f, x)};
          } else {
            PlaceOld(orig, blocks, phi2val, frontier, x, work, i, has, has0, rest, f);
          }
          rest := rest - {f};
        }
        PlaceOut(orig, blocks, phi2val, frontier, x, work, i, has, has0);
        GrownDecreases(orig, x, has1, has);
        i := i + 1;
      }
      PlaceEnd(orig, blocks, phi2val, frontier, x, work, has, has0);
    }

    /** Steps 1 and 2: exactly the iterated dominance frontier of the stores of each variable
        gets a phi for it. */
    method GeneratePhi(ghost allocas: set<Name>) returns (ghost has: Placement)
      requires forall b, i :: 0 <= b < |blocks| && 0 <= i < |blocks[b].body| && blocks[b].body[i].Store? ==>
                 (IsValidPtr(geps, blocks[b].body[i].ptr) <==> IsSlot(allocas, blocks[b].body[i].ptr))
      requires FrontiersInside(frontier, |blocks|) && forall b :: 0 <= b < |blocks| ==> blocks[b].phis == []
      modifies this`blocks, this`phi2val
      ensures PhisPlaced(old(blocks), blocks, has) && Phi2Val(phi2val, has)
      ensures forall x :: x in allocas ==> LeastFor(old(blocks), frontier, x, BlocksWith(has, x))
      ensures forall x :: x !in allocas ==> BlocksWith(has, x) == {}
    {
      ghost var orig := blocks;
      var globals, global2bb := CollectStores(allocas);
      var placed: Placement := {};
      phi2val := map[];
      var vars := globals;
      while vars != {}
        invariant vars <= globals
        invariant PhisPlaced(orig, blocks, placed) && Phi2Val(phi2val, placed)
        invariant forall x :: x in globals - vars ==> LeastFor(orig, frontier, x, BlocksWith(placed, x))
        invariant forall x :: x in vars || x !in globals ==> BlocksWith(placed, x) == {}
        decreases vars
      {
        var x :| x in vars;
        CollectedAll(orig, allocas, globals, global2bb, x);
        placed := PlacePhis(x, global2bb[x], placed, orig);
        vars := vars - {x};
      }
      has := placed;
      NeverStored(orig, allocas, globals, global2bb, frontier);
    }

    /** Step 3: the phis of the block become the latest definitions of their variables. */
    method PushPhis(bb: Block, ghost cx: Context, ghost dsts: seq<seq<Name>>)
      requires Setting(cx, dsts, phi2val, geps, children) && bb < |blocks|
      requires WalkInv(cx, dsts, blocks, valStack, subst, done, entered, finished)
      modifies this`valStack
      ensures bb < |dsts| && KeysOk(cx, valStack)
      ensures Pushed(cx, old(valStack), valStack, dsts[bb], bb, |dsts[bb]|, 0)
    {
      hide *;
      var phis := blocks[bb].phis;
      PhisBegin(cx, dsts, phi2val, geps, children, blocks, valStack, subst, done, entered, finished, bb);
      for k := 0 to |phis|
        invariant KeysOk(cx, valStack) && PhiView(cx, dsts, blocks, entered, ENTRY, {})
        invariant Pushed(cx, old(valStack), valStack, dsts[bb], bb, k, 0)
      {
        PhiFacts(cx, dsts, phi2val, geps, children, blocks, subst, done, entered, finished, bb, k);
        var x := phi2val[phis[k].dst];
        PushPhi(cx, old(valStack), valStack, dsts, bb, k, x);
        valStack := valStack[x := Get(valStack, x) + [Ref(phis[k].dst)]];
      }
    }

    /** `replace_all_use_with` on the result of a load. */
    method ReplaceAllUseWith(l: Name, v: Operand)
      modifies this`blocks
      ensures blocks == MapBlocks(Replace(l, v), old(blocks))
    {
      blocks := MapBlocks(Replace(l, v), blocks);
    }

    /** Steps 4 and 5: uses of a load of a variable give way to the top of its stack, stores push
        their value. */
    method RenameBody(bb: Block, ghost cx: Context, ghost dsts: seq<seq<Name>>, ghost base: Stacks)
      requires Setting(cx, dsts, phi2val, geps, children)
      requires MidInv(cx, dsts, blocks, base, valStack, subst, done, entered, finished, bb, 0)
      modifies this`blocks, this`valStack, this`subst, this`done
      ensures bb < |cx.blocks|
      ensures MidInv(cx, dsts, blocks, base, valStack, subst, done, entered, finished, bb, |Body(cx, bb)|)
    {
      hide *;
      SettingFacts(cx, dsts, phi2val, geps, children);
      MidText(cx, dsts, blocks, base, valStack, subst, done, entered, finished, bb, 0);
      var i := 0;
      while i < |blocks[bb].body|
        invariant bb < |blocks| == |cx.blocks| && |blocks[bb].body| == |Body(cx, bb)| && i <= |Body(cx, bb)|
        invariant MidInv(cx, dsts, blocks, base, valStack, subst, done, entered, finished, bb, i)
        decreases |Body(cx, bb)| - i
      {
        RenameInstr(bb, i, cx, dsts, base);
        i := i + 1;
        MidText(cx, dsts, blocks, base, valStack, subst, done, entered, finished, bb, i);
      }
    }

    /** One instruction of steps 4 and 5. */
    method RenameInstr(bb: Block, i: nat, ghost cx: Context, ghost dsts: seq<seq<Name>>, ghost base: Stacks)
      requires Setting(cx, dsts, phi2val, geps, children)
      requires bb < |blocks| == |cx.blocks| && i < |blocks[bb].body| == |Body(cx, bb)|
      requires MidInv(cx, dsts, blocks, base, valStack, subst, done, entered, finished, bb, i)
      modifies this`blocks, this`valStack, this`subst, this`done
      ensures MidInv(cx, dsts, blocks, base, valStack, subst, done, entered, finished, bb, i + 1)
    {
      hide *;
      SettingFacts(cx, dsts, phi2val, geps, children);
      MidInstr(cx, dsts, geps, blocks, base, valStack, subst, done, entered, finished, bb, i);
      var ins := blocks[bb].body[i];
      if ins.Load? && IsValidPtr(geps, ins.ptr) {
        MidSlot(cx, bb, i);
        MidLoadTop(cx, dsts, blocks, base, valStack, subst, done, entered, finished, bb, i);
        var x := ins.ptr.name;
        if x in valStack {
          var v := valStack[x][|valStack[x]| - 1];
          MidReplace(cx, dsts, blocks, base, valStack, subst, done, entered, finished, bb, i, ins.dst, v);
          ReplaceAllUseWith(ins.dst, v);
          subst := Then(subst, ins.dst, v);
          done := done + {ins.dst};
        } else {
          MidKeep(cx, dsts, blocks, base, valStack, subst, done, entered, finished, bb, i);
        }
      } else if ins.Store? && IsValidPtr(geps, ins.ptr) {
        MidSlot(cx, bb, i);
        var x := ins.ptr.name;
        MidPush(cx, dsts, blocks, base, valStack, subst, done, entered, finished, bb, i, x, ins.val);
        valStack := valStack[x := Get(valStack, x) + [ins.val]];
      } else {
        MidNeither(cx, dsts, blocks, base, valStack, subst, done, entered, finished, bb, i);
      }
    }

    /** Step 6 for one successor: each of its phis gets the top of its variable's stack. */
    method FillPhis(bb: Block, s: Block)
      requires s < |blocks|
      modifies this`blocks
      ensures blocks == old(blocks)[s := old(blocks)[s].(phis := AddPairs(old(blocks)[s].phis, valStack, phi2val, bb))]
    {
      var phis := blocks[s].phis;
      var filled := [];
      for k := 0 to |phis|
        invariant filled == AddPairs(phis[..k], valStack, phi2val, bb)
      {
        filled := filled + [AddPair(phis[k], valStack, phi2val, bb)];
      }
      assert phis[..|phis|] == phis;
      blocks := blocks[s := blocks[s].(phis := filled)];
    }

    method FillSuccessors(bb: Block, ghost cx: Context, ghost dsts: seq<seq<Name>>) returns (ghost filled: set<Block>)
      requires Setting(cx, dsts, phi2val, geps, children) && cx.g == g && bb < |g.succs| && bb in cx.t && bb !in entered
      requires |blocks| == |cx.blocks| && PhiView(cx, dsts, blocks, entered, ENTRY, {})
      requires forall x :: x in cx.allocas ==> TopIs(valStack, x, OutOperand(cx, bb, x))
      modifies this`blocks
      ensures SameText(old(blocks), blocks)
      ensures PhiView(cx, dsts, blocks, entered, bb, filled) && forall s :: Edge(cx.g, bb, s) ==> s in filled
    {
      hide *;
      SettingFacts(cx, dsts, phi2val, geps, children);
      FillBegin(cx, dsts, blocks, entered, bb);
      SameTextRefl(blocks);
      var succs := g.succs[bb];
      filled := {};
      for k := 0 to |succs|
        invariant SameText(old(blocks), blocks) && |blocks| == |cx.blocks|
        invariant PhiView(cx, dsts, blocks, entered, bb, filled)
        invariant forall j :: 0 <= j < k ==> succs[j] in filled
      {
        var s := succs[k];
        SuccessorEdge(cx, bb, k);
        FillBlock(cx, dsts, blocks, valStack, phi2val, entered, bb, filled, s);
        ghost var before := blocks;
        FillPhis(bb, s);
        SameTextPhis(old(blocks), before, s, blocks[s].phis);
        filled := filled + {s};
      }
      SuccessorsAll(cx, bb, filled);
    }

    /** Step 7: the blocks immediately dominated by bb, in any order. */
    method RenameChildren(bb: Block, ghost cx: Context, ghost dsts: seq<seq<Name>>, ghost entered0: set<Block>)
      requires Setting(cx, dsts, phi2val, geps, children) && cx.g == g && bb in children
      requires Ready(cx, entered0, bb) && entered == entered0 + {bb} && bb !in finished
      requires WalkInv(cx, dsts, blocks, valStack, subst, done, entered, finished)
      requires forall x :: x in cx.allocas ==> TopIs(valStack, x, OutOperand(cx, bb, x))
      modifies this`blocks, this`valStack, this`subst, this`done, this`entered, this`finished
      ensures WalkInv(cx, dsts, blocks, valStack, subst, done, entered, finished)
      ensures entered == entered0 + Subtree(cx, bb)
      ensures bb !in finished && finished + {bb} == old(finished) + Subtree(cx, bb)
      ensures SameStacks(cx, old(valStack), valStack)
      decreases cx.id[bb], 0
    {
      hide *;
      SettingFacts(cx, dsts, phi2val, geps, children);
      ghost var kids: set<Block> := {};
      KidsBegin(cx, entered0, bb, valStack, finished);
      var rest := children[bb];
      while rest != {}
        invariant rest <= children[bb] && kids == children[bb] - rest
        invariant KidsDone(cx, entered0, entered, bb, kids)
        invariant WalkInv(cx, dsts, blocks, valStack, subst, done, entered, finished)
        invariant SameStacks(cx, old(valStack), valStack)
        invariant KidsFinished(cx, old(finished), finished, bb, kids)
        decreases rest
      {
        var k :| k in rest;
        ghost var entered1, finished1, stack1 := entered, finished, valStack;
        KidStep(cx, children, entered0, entered, bb, kids, k, old(valStack), valStack);
        Rename(k, cx, dsts);
        KidDone(cx, entered0, entered1, bb, kids, k);
        KidFinished(cx, old(finished), finished1, bb, kids, k);
        SameStacksTrans(cx, old(valStack), stack1, valStack);
        kids := kids + {k};
        rest := rest - {k};
      }
      KidsEnd(cx, children, entered0, entered, old(finished), finished, bb, kids);
    }

    /** Step 8: every push of the block is undone. */
    method PopBlock(bb: Block, ghost cx: Context, ghost dsts: seq<seq<Name>>, ghost base: Stacks)
      requires Setting(cx, dsts, phi2val, geps, children) && bb < |blocks| && bb in cx.t && bb !in finished
      requires WalkInv(cx, dsts, blocks, valStack, subst, done, entered, finished)
      requires bb < |dsts| && Pushed(cx, base, valStack, dsts[bb], bb, |dsts[bb]|, |Body(cx, bb)|)
      modifies this`valStack
      ensures SameStacks(cx, base, valStack) && KeysOk(cx, valStack)
    {
      hide *;
      SettingFacts(cx, dsts, phi2val, geps, children);
      PopFacts(cx, dsts, phi2val, geps, children, blocks, valStack, subst, done, entered, finished, bb);
      PopBegin(cx, base, valStack, dsts[bb], bb);
      var phis := blocks[bb].phis;
      for k := 0 to |phis|
        invariant Popped(cx, base, valStack, dsts[bb], bb, k, 0) && KeysOk(cx, valStack)
      {
        PhiFacts(cx, dsts, phi2val, geps, children, blocks, subst, done, entered, finished, bb, k);
        var x := phi2val[phis[k].dst];
        PopPhi(cx, base, valStack, dsts[bb], bb, k, x);
        KeysPop(cx, valStack, x);
        valStack := Pop(valStack, x);
      }
      var body := blocks[bb].body;
      for i := 0 to |body|
        invariant Popped(cx, base, valStack, dsts[bb], bb, |dsts[bb]|, i) && KeysOk(cx, valStack)
      {
        var ins := body[i];
        TextInstr(cx, geps, blocks, subst, done, finished, bb, i);
        if ins.Store? && IsValidPtr(geps, ins.ptr) {
          var x := ins.ptr.name;
          PopStore(cx, base, valStack, dsts[bb], bb, i, x);
          KeysPop(cx, valStack, x);
          valStack := Pop(valStack, x);
        } else {
          PopOther(cx, base, valStack, dsts[bb], bb, i);
        }
      }
      PopEnd(cx, base, valStack, dsts[bb], bb);
    }

    /** Step 9: the stores to variables are deleted. */
    method EraseStores(bb: Block, ghost cx: Context, ghost dsts: seq<seq<Name>>)
      requires Setting(cx, dsts, phi2val, geps, children) && bb < |blocks| && bb in entered && bb !in finished
      requires WalkInv(cx, dsts, blocks, valStack, subst, done, entered, finished)
      modifies this`blocks
      ensures WalkInv(cx, dsts, blocks, valStack, subst, done, entered, finished + {bb})
    {
      hide *;
      SettingFacts(cx, dsts, phi2val, geps, children);
      PopFacts(cx, dsts, phi2val, geps, children, blocks, valStack, subst, done, entered, finished, bb);
      var body := blocks[bb].body;
      var kept := [];
      var i := |body|;
      KeptNone(cx.allocas, body);
      while i > 0
        invariant 0 <= i <= |body| && blocks == old(blocks)
        invariant kept == DropStores(cx.allocas, body[i..])
      {
        i := i - 1;
        var ins := body[i];
        TextInstr(cx, geps, blocks, subst, done, finished, bb, i);
        KeptOne(cx.allocas, body, i);
        if !(ins.Store? && IsValidPtr(geps, ins.ptr)) {
          kept := [ins] + kept;
        }
      }
      EraseDone(cx, dsts, blocks, valStack, subst, done, entered, finished, bb);
      blocks := blocks[bb := blocks[bb].(body := kept)];
    }

    /** Renaming of a block and, recursively, of all blocks it dominates. */
    method Rename(bb: Block, ghost cx: Context, ghost dsts: seq<seq<Name>>)
      requires Setting(cx, dsts, phi2val, geps, children) && cx.g == g
      requires WalkInv(cx, dsts, blocks, valStack, subst, done, entered, finished)
      requires Ready(cx, entered, bb) && StacksInherit(cx, valStack, bb)
      modifies this`blocks, this`valStack, this`subst, this`done, this`entered, this`finished
      ensures WalkInv(cx, dsts, blocks, valStack, subst, done, entered, finished)
      ensures entered == old(entered) + Subtree(cx, bb) && finished == old(finished) + Subtree(cx, bb)
      ensures SameStacks(cx, old(valStack), valStack)
      decreases cx.id[bb], 1
    {
      hide *;
      RenameFacts(cx, dsts, phi2val, geps, children, blocks, valStack, subst, done, entered, finished, bb);
      ghost var base, entered0 := valStack, entered;
      PushPhis(bb, cx, dsts);
      MidBegin(cx, dsts, blocks, base, base, valStack, subst, done, entered, finished, bb);
      RenameBody(bb, cx, dsts, base);
      MidEnd(cx, dsts, blocks, base, valStack, subst, done, entered, finished, bb);
      MidFacts(cx, dsts, blocks, base, valStack, subst, done, entered, finished, bb);
      ghost var blocks1, full := blocks, valStack;
      ghost var filled := FillSuccessors(bb, cx, dsts);
      FilledDone(cx, dsts, blocks1, blocks, base, valStack, subst, done, entered, finished, bb, filled);
      entered := entered + {bb};
      RenameChildren(bb, cx, dsts, entered0);
      SelfInSubtree(cx, bb);
      LeaveFacts(cx, dsts, blocks, base, full, valStack, subst, done, entered, finished, bb);
      ghost var popping := valStack;
      PopBlock(bb, cx, dsts, base);
      WalkStacks(cx, dsts, blocks, popping, valStack, subst, done, entered, finished);
      EraseStores(bb, cx, dsts);
      finished := finished + {bb};
    }
  }

  // ----- Lemmas about placement -----

  /** The state of the worklist for x: besides x's own, no phi has been added since `has0`. */
  ghost predicate PlaceState(orig: seq<BasicBlock>, blocks: seq<BasicBlock>, phi2val: map<Name, Name>, f: Frontiers,
      x: Name, work: seq<Block>, i: nat, has: Placement, has0: Placement) {
    && PhisPlaced(orig, blocks, has) && Phi2Val(phi2val, has) && FrontiersInside(f, |orig|)
    && Work(orig, f, x, work, i, BlocksWith(has, x))
    && forall y :: y != x ==> BlocksWith(has, y) == BlocksWith(has0, y)
  }

  ghost predicate PlaceStep(orig: seq<BasicBlock>, blocks: seq<BasicBlock>, phi2val: map<Name, Name>, f: Frontiers,
      x: Name, work: seq<Block>, i: nat, has: Placement, has0: Placement, rest: set<Block>) {
    && PhisPlaced(orig, blocks, has) && Phi2Val(phi2val, has) && FrontiersInside(f, |orig|)
    && FrontierStep(orig, f, x, work, i, BlocksWith(has, x), rest)
    && forall y :: y != x ==> BlocksWith(has, y) == BlocksWith(has0, y)
  }

  ghost predicate Grown(orig: seq<BasicBlock>, x: Name, has1: Placement, has: Placement) {
    has == has1 || (BlocksWith(has1, x) < BlocksWith(has, x) && forall b :: b in BlocksWith(has, x) ==> b < |orig|)
  }

  lemma GrownNew(orig: seq<BasicBlock>, x: Name, has1: Placement, has: Placement, f: Block)
    requires Grown(orig, x, has1, has) && (f, x) !in has && f < |orig|
    requires forall b :: b in BlocksWith(has, x) ==> b < |orig|
    ensures Grown(orig, x, has1, has + {(f, x)}) && has + {(f, x)} != has1
  {
    BlocksWithAdd(has, f, x, x);
    BlocksWithAdd(has1, f, x, x);
  }

  lemma GrownDecreases(orig: seq<BasicBlock>, x: Name, has1: Placement, has: Placement)
    requires Grown(orig, x, has1, has)
    ensures has == has1 || Blocks(|orig|) - BlocksWith(has, x) < Blocks(|orig|) - BlocksWith(has1, x)
  {
    if has != has1 {
      var b :| b in BlocksWith(has, x) && b !in BlocksWith(has1, x);
      assert b in Blocks(|orig|) - BlocksWith(has1, x) && b !in Blocks(|orig|) - BlocksWith(has, x);
    }
  }

  lemma WorkBegins(orig: seq<BasicBlock>, f: Frontiers, x: Name, stores: set<Block>, work: seq<Block>)
    requires FrontiersInside(f, |orig|) && (forall c :: c in stores <==> Stores(orig, c, x))
    requires forall b :: b in work <==> b in stores
    ensures Work(orig, f, x, work, 0, {})
  {
    forall j | 0 <= j < |work|
      ensures work[j] in f && Stores(orig, work[j], x)
    {
      assert work[j] in work;
    }
  }

  lemma PlaceBegin(orig: seq<BasicBlock>, blocks: seq<BasicBlock>, phi2val: map<Name, Name>, f: Frontiers, x: Name,
                   stores: set<Block>, work: seq<Block>, has: Placement)
    requires PhisPlaced(orig, blocks, has) && Phi2Val(phi2val, has) && FrontiersInside(f, |orig|)
    requires BlocksWith(has, x) == {} && forall c :: c in stores <==> Stores(orig, c, x)
    requires forall b :: b in work <==> b in stores
    ensures PlaceState(orig, blocks, phi2val, f, x, work, 0, has, has)
  {
    WorkBegins(orig, f, x, stores, work);
  }

  lemma PlaceIn(orig: seq<BasicBlock>, blocks: seq<BasicBlock>, phi2val: map<Name, Name>, f: Frontiers, x: Name,
                work: seq<Block>, i: nat, has: Placement, has0: Placement)
    requires PlaceState(orig, blocks, phi2val, f, x, work, i, has, has0) && i < |work|
    ensures work[i] in f && PlaceStep(orig, blocks, phi2val, f, x, work, i, has, has0, f[work[i]])
    ensures Grown(orig, x, has, has)
  {
    StepBegins(orig, f, x, work, i, BlocksWith(has, x));
  }

  lemma PlaceFacts(orig: seq<BasicBlock>, blocks: seq<BasicBlock>, phi2val: map<Name, Name>, f: Frontiers, x: Name,
                   work: seq<Block>, i: nat, has: Placement, has0: Placement, rest: set<Block>, b: Block)
    requires PlaceStep(orig, blocks, phi2val, f, x, work, i, has, has0, rest) && b in rest
    ensures b < |orig| == |blocks|
    ensures forall c :: c in BlocksWith(has, x) ==> c < |orig|
  {
  }

  lemma PlaceNew(orig: seq<BasicBlock>, blocks: seq<BasicBlock>, phi2val: map<Name, Name>, f: Frontiers, x: Name,
                 work: seq<Block>, i: nat, has: Placement, has0: Placement, rest: set<Block>, b: Block)
    requires PlaceStep(orig, blocks, phi2val, f, x, work, i, has, has0, rest) && b in rest && (b, x) !in has
    requires b < |blocks|
    ensures PlaceStep(orig, AddPhi(blocks, b, x), phi2val[PhiName(b, x) := x], f, x, work + [b], i, has + {(b, x)},
            has0, rest - {b})
    ensures i < |work + [b]|
  {
    AddPhiPlaced(orig, blocks, has, b, x);
    StepNew(orig, f, x, |orig|, work, i, BlocksWith(has, x), rest, b);
    BlocksWithAdd(has, b, x, x);
    forall y | y != x
      ensures BlocksWith(has + {(b, x)}, y) == BlocksWith(has0, y)
    {
      BlocksWithAdd(has, b, x, y);
    }
  }

  lemma PlaceOld(orig: seq<BasicBlock>, blocks: seq<BasicBlock>, phi2val: map<Name, Name>, f: Frontiers, x: Name,
                 work: seq<Block>, i: nat, has: Placement, has0: Placement, rest: set<Block>, b: Block)
    requires PlaceStep(orig, blocks, phi2val, f, x, work, i, has, has0, rest) && (b, x) in has
    ensures PlaceStep(orig, blocks, phi2val, f, x, work, i, has, has0, rest - {b})
  {
    BlocksWithAdd(has, b, x, x);
    StepOld(orig, f, x, work, i, BlocksWith(has, x), rest, b);
  }

  lemma PlaceOut(orig: seq<BasicBlock>, blocks: seq<BasicBlock>, phi2val: map<Name, Name>, f: Frontiers, x: Name,
                 work: seq<Block>, i: nat, has: Placement, has0: Placement)
    requires PlaceStep(orig, blocks, phi2val, f, x, work, i, has, has0, {})
    ensures PlaceState(orig, blocks, phi2val, f, x, work, i + 1, has, has0)
  {
    StepEnds(orig, f, x, work, i, BlocksWith(has, x));
  }

  lemma PlaceEnd(orig: seq<BasicBlock>, blocks: seq<BasicBlock>, phi2val: map<Name, Name>, f: Frontiers, x: Name,
                 work: seq<Block>, has: Placement, has0: Placement)
    requires PlaceState(orig, blocks, phi2val, f, x, work, |work|, has, has0)
    ensures PhisPlaced(orig, blocks, has) && Phi2Val(phi2val, has)
    ensures LeastFor(orig, f, x, BlocksWith(has, x))
    ensures forall y :: y != x ==> BlocksWith(has, y) == BlocksWith(has0, y)
  {
    WorkDone(orig, f, x, work, BlocksWith(has, x));
  }

  lemma CollectedAll(blocks: seq<BasicBlock>, allocas: set<Name>, globals: set<Name>, global2bb: map<Name, set<Block>>,
      x: Name)
    requires Collected(blocks, allocas, globals, global2bb, |blocks|, 0) && x in globals
    ensures x in global2bb && forall c :: c in global2bb[x] <==> Stores(blocks, c, x)
  {
    forall c
      ensures c in global2bb[x] <==> Stores(blocks, c, x)
    {
      assert Filed(global2bb, x, c) <==> StoredSoFar(blocks, allocas, |blocks|, 0, x, c);
    }
  }

  /** A variable nothing is stored to gets no phi, which is the least closed set for it. */
  lemma NeverStored(blocks: seq<BasicBlock>, allocas: set<Name>, globals: set<Name>, global2bb: map<Name, set<Block>>,
      f: Frontiers)
    requires Collected(blocks, allocas, globals, global2bb, |blocks|, 0)
    ensures forall x :: x in allocas && x !in globals ==> LeastFor(blocks, f, x, {})
    ensures forall x :: x in globals ==> x in allocas
  {
    forall x | x in allocas && x !in globals
      ensures LeastFor(blocks, f, x, {})
    {
      forall c
        ensures !Stores(blocks, c, x)
      {
        assert Filed(global2bb, x, c) <==> StoredSoFar(blocks, allocas, |blocks|, 0, x, c);
      }
    }
  }

  lemma CollectStore(blocks: seq<BasicBlock>, allocas: set<Name>, globals: set<Name>, global2bb: map<Name, set<Block>>,
      b: nat, i: nat, x: Name)
    requires Collected(blocks, allocas, globals, global2bb, b, i) && b < |blocks| && i < |blocks[b].body|
    requires blocks[b].body[i].Store? && blocks[b].body[i].ptr == Ref(x) && x in allocas
    ensures Collected(blocks, allocas, globals + {x},
            global2bb[x := (if x in global2bb then global2bb[x] else {}) + {b}], b, i + 1)
  {
    var g2 := global2bb[x := (if x in global2bb then global2bb[x] else {}) + {b}];
    forall y, c
      ensures Filed(g2, y, c) <==> StoredSoFar(blocks, allocas, b, i + 1, y, c)
    {
      assert Filed(global2bb, y, c) <==> StoredSoFar(blocks, allocas, b, i, y, c);
      StoredNext(blocks, allocas, b, i, y, c);
    }
  }

  lemma StoredNext(blocks: seq<BasicBlock>, allocas: set<Name>, b: nat, i: nat, y: Name, c: Block)
    requires b < |blocks| && i < |blocks[b].body|
    ensures StoredSoFar(blocks, allocas, b, i + 1, y, c) <==>
            StoredSoFar(blocks, allocas, b, i, y, c) ||
            (c == b && y in allocas && blocks[b].body[i].Store? && blocks[b].body[i].ptr == Ref(y))
  {
  }

  lemma CollectOther(blocks: seq<BasicBlock>, allocas: set<Name>, globals: set<Name>, global2bb: map<Name, set<Block>>,
      b: nat, i: nat)
    requires Collected(blocks, allocas, globals, global2bb, b, i) && b < |blocks| && i < |blocks[b].body|
    requires !IsSlotStore(allocas, blocks[b].body[i])
    ensures Collected(blocks, allocas, globals, global2bb, b, i + 1)
  {
    forall y, c
      ensures Filed(global2bb, y, c) <==> StoredSoFar(blocks, allocas, b, i + 1, y, c)
    {
      assert Filed(global2bb, y, c) <==> StoredSoFar(blocks, allocas, b, i, y, c);
      StoredNext(blocks, allocas, b, i, y, c);
    }
  }

  lemma CollectBlock(blocks: seq<BasicBlock>, allocas: set<Name>, globals: set<Name>, global2bb: map<Name, set<Block>>,
      b: nat)
    requires b < |blocks| && Collected(blocks, allocas, globals, global2bb, b, |blocks[b].body|)
    ensures Collected(blocks, allocas, globals, global2bb, b + 1, 0)
  {
    forall y, c
      ensures Filed(global2bb, y, c) <==> StoredSoFar(blocks, allocas, b + 1, 0, y, c)
    {
      assert Filed(global2bb, y, c) <==> StoredSoFar(blocks, allocas, b, |blocks[b].body|, y, c);
    }
  }

  // ----- Lemmas about renaming -----

  lemma SettingFacts(cx: Context, dsts: seq<seq<Name>>, phi2val: map<Name, Name>, geps: set<Name>,
      children: map<Block, set<Block>>)
    requires Setting(cx, dsts, phi2val, geps, children)
    ensures SourceOk(cx) && GraphOk(cx) && DstsOk(cx, dsts) && PhiNames(phi2val, dsts)
    ensures GepsOk(cx, geps) && ChildrenOk(cx, children) && LoadsReached(cx)
  {
  }

  lemma PhisBegin(cx: Context, dsts: seq<seq<Name>>, phi2val: map<Name, Name>, geps: set<Name>,
      children: map<Block, set<Block>>, blocks: seq<BasicBlock>, vs: Stacks, f: Operand -> Operand, done: set<Name>,
      entered: set<Block>, finished: set<Block>, bb: Block)
    requires Setting(cx, dsts, phi2val, geps, children) && bb < |blocks|
    requires WalkInv(cx, dsts, blocks, vs, f, done, entered, finished)
    ensures SourceOk(cx) && PhiView(cx, dsts, blocks, entered, ENTRY, {}) && KeysOk(cx, vs)
    ensures bb < |dsts| && |blocks[bb].phis| == |dsts[bb]|
    ensures Pushed(cx, vs, vs, dsts[bb], bb, 0, 0)
  {
    hide Setting, SourceOk, View, IsPart, DoneUpTo, KeysOk;
    assert PhiViewBlock(cx, dsts[bb], blocks[bb].phis, bb, entered, ENTRY, {});
  }

  lemma PhiFacts(cx: Context, dsts: seq<seq<Name>>, phi2val: map<Name, Name>, geps: set<Name>,
      children: map<Block, set<Block>>, blocks: seq<BasicBlock>, f: Operand -> Operand, done: set<Name>,
      entered: set<Block>, finished: set<Block>, bb: Block, k: nat)
    requires Setting(cx, dsts, phi2val, geps, children) && bb < |blocks| && k < |blocks[bb].phis|
    requires PhiView(cx, dsts, blocks, entered, ENTRY, {})
    ensures bb < |dsts| && k < |dsts[bb]| && blocks[bb].phis[k].dst == dsts[bb][k]
    ensures dsts[bb][k] in phi2val && dsts[bb][k].PhiName? && phi2val[dsts[bb][k]] == dsts[bb][k].slot
    ensures dsts[bb][k].slot in cx.allocas && StoredSomewhere(cx, dsts[bb][k].slot)
  {
    assert PhiViewBlock(cx, dsts[bb], blocks[bb].phis, bb, entered, ENTRY, {});
    assert BlockDstsOk(cx, dsts[bb], bb);
  }

  lemma PushPhi(cx: Context, base: Stacks, vs: Stacks, dsts: seq<seq<Name>>, bb: Block, k: nat, x: Name)
    requires SourceOk(cx) && bb < |dsts| && k < |dsts[bb]| && KeysOk(cx, vs)
    requires Pushed(cx, base, vs, dsts[bb], bb, k, 0)
    requires dsts[bb][k].PhiName? && dsts[bb][k].slot == x && x in cx.allocas && StoredSomewhere(cx, x)
    ensures var vs' := vs[x := Get(vs, x) + [Ref(dsts[bb][k])]];
            KeysOk(cx, vs') && Pushed(cx, base, vs', dsts[bb], bb, k + 1, 0)
  {
    hide SourceOk, BodyPushes, PhiPushes, Get;
    var d := dsts[bb];
    var vs' := vs[x := Get(vs, x) + [Ref(d[k])]];
    forall y | y in cx.allocas
      ensures Get(vs', y) == Get(base, y) + PhiPushes(d, k + 1, y) + BodyPushes(cx, bb, 0, y)
    {
      assert Get(vs, y) == Get(base, y) + PhiPushes(d, k, y) + BodyPushes(cx, bb, 0, y);
      if y == x {
        PushedHere(cx, base, vs, d, bb, k, x);
      } else {
        PushedElsewhere(vs, d, k, x, y);
      }
    }
  }

  lemma PushedHere(cx: Context, base: Stacks, vs: Stacks, d: seq<Name>, b: Block, k: nat, x: Name)
    requires SourceOk(cx) && k < |d| && d[k].PhiName? && d[k].slot == x
    requires Get(vs, x) == Get(base, x) + PhiPushes(d, k, x) + BodyPushes(cx, b, 0, x)
    ensures Get(vs[x := Get(vs, x) + [Ref(d[k])]], x) == Get(base, x) + PhiPushes(d, k + 1, x) + BodyPushes(cx, b, 0, x)
  {
    PhiPushed(d, k, x);
    PushedIsLast(cx, b, Get(base, x), PhiPushes(d, k, x), [Ref(d[k])], x);
    hide *;
    TopOf(vs, x, Get(vs, x) + [Ref(d[k])]);
  }

  lemma TopOf(vs: Stacks, x: Name, s: seq<Operand>)
    ensures Get(vs[x := s], x) == s
  {
  }

  lemma PushedElsewhere(vs: Stacks, d: seq<Name>, k: nat, x: Name, y: Name)
    requires k < |d| && d[k].PhiName? && d[k].slot == x && y != x
    ensures Get(vs[x := Get(vs, x) + [Ref(d[k])]], y) == Get(vs, y) && PhiPushes(d, k + 1, y) == PhiPushes(d, k, y)
  {
    PhiPushed(d, k, y);
    hide PhiPushes;
    assert PhiPushes(d, k, y) + [] == PhiPushes(d, k, y);
  }

  lemma PhiPushed(d: seq<Name>, k: nat, y: Name)
    requires k < |d| && d[k].PhiName?
    ensures PhiPushes(d, k + 1, y) == PhiPushes(d, k, y) + (if d[k].slot == y then [Ref(d[k])] else [])
  {
  }

  /** Nothing of the body is pushed yet, so what is pushed now comes last. */
  lemma PushedIsLast(cx: Context, b: Block, base: seq<Operand>, phis: seq<Operand>, more: seq<Operand>, y: Name)
    requires SourceOk(cx)
    ensures base + phis + BodyPushes(cx, b, 0, y) + more == base + (phis + more) + BodyPushes(cx, b, 0, y)
  {
    hide SourceOk;
    assert BodyPushes(cx, b, 0, y) == [];
  }

  /** A valid pointer names an alloca. */
  lemma MidSlot(cx: Context, bb: Block, i: nat)
    requires i < |Body(cx, bb)|
    ensures var ins := Body(cx, bb)[i];
            (ins.Load? || ins.Store?) && IsSlot(cx.allocas, ins.ptr) ==>
              ins.ptr == Ref(ins.ptr.name) && ins.ptr.name in cx.allocas
  {
  }

  lemma MidNeither(cx: Context, dsts: seq<seq<Name>>, blocks: seq<BasicBlock>, base: Stacks, vs: Stacks,
      f: Operand -> Operand, done: set<Name>, entered: set<Block>, finished: set<Block>, bb: Block, i: nat)
    requires MidInv(cx, dsts, blocks, base, vs, f, done, entered, finished, bb, i) && i < |Body(cx, bb)|
    requires var ins := Body(cx, bb)[i]; (ins.Load? || ins.Store?) ==> !IsSlot(cx.allocas, ins.ptr)
    ensures MidInv(cx, dsts, blocks, base, vs, f, done, entered, finished, bb, i + 1)
  {
    if Body(cx, bb)[i].Load? {
      MemoryLoadStays(cx, bb, i);
    }
    MidSkip(cx, dsts, blocks, base, vs, f, done, entered, finished, bb, i);
  }

  lemma MidKeep(cx: Context, dsts: seq<seq<Name>>, blocks: seq<BasicBlock>, base: Stacks, vs: Stacks,
      f: Operand -> Operand, done: set<Name>, entered: set<Block>, finished: set<Block>, bb: Block, i: nat)
    requires MidInv(cx, dsts, blocks, base, vs, f, done, entered, finished, bb, i)
    requires i < |Body(cx, bb)| && Body(cx, bb)[i].Load? && !Resolvable(cx, Body(cx, bb)[i].dst)
    ensures MidInv(cx, dsts, blocks, base, vs, f, done, entered, finished, bb, i + 1)
  {
    MidSkip(cx, dsts, blocks, base, vs, f, done, entered, finished, bb, i);
  }

  /** Two versions of a function that differ in phis only. */
  ghost predicate SameText(blocks: seq<BasicBlock>, blocks': seq<BasicBlock>) {
    && |blocks'| == |blocks|
    && forall b :: 0 <= b < |blocks| ==> blocks'[b].body == blocks[b].body && blocks'[b].term == blocks[b].term
  }

  lemma SameTextRefl(blocks: seq<BasicBlock>)
    ensures SameText(blocks, blocks)
  {
  }

  lemma SameTextPhis(blocks: seq<BasicBlock>, blocks1: seq<BasicBlock>, s: Block, phis: seq<Phi>)
    requires SameText(blocks, blocks1) && s < |blocks1|
    ensures SameText(blocks, blocks1[s := blocks1[s].(phis := phis)])
  {
  }

  lemma SuccessorEdge(cx: Context, bb: Block, k: nat)
    requires GraphOk(cx) && bb < |cx.g.succs| && k < |cx.g.succs[bb]|
    ensures Edge(cx.g, bb, cx.g.succs[bb][k]) && cx.g.succs[bb][k] < |cx.blocks|
  {
    assert Edge(cx.g, bb, cx.g.succs[bb][k]);
  }

  lemma SuccessorsAll(cx: Context, bb: Block, filled: set<Block>)
    requires bb < |cx.g.succs| && forall j :: 0 <= j < |cx.g.succs[bb]| ==> cx.g.succs[bb][j] in filled
    ensures forall s :: Edge(cx.g, bb, s) ==> s in filled
  {
  }

  // The children of one block.

  ghost predicate KidsFinished(cx: Context, finished0: set<Block>, finished: set<Block>, bb: Block, kids: set<Block>) {
    && TreeOk(cx) && bb in cx.t
    && forall c :: c in finished <==> c in finished0 || UnderKid(cx, kids, c)
  }

  lemma KidsBegin(cx: Context, entered0: set<Block>, bb: Block, vs: Stacks, finished: set<Block>)
    requires Ready(cx, entered0, bb)
    ensures KidsDone(cx, entered0, entered0 + {bb}, bb, {}) && KidsFinished(cx, finished, finished, bb, {})
    ensures SameStacks(cx, vs, vs)
  {
  }

  lemma KidStep(cx: Context, children: map<Block, set<Block>>, entered0: set<Block>, entered: set<Block>, bb: Block,
      kids: set<Block>, k: Block, vs0: Stacks, vs: Stacks)
    requires SourceOk(cx) && ChildrenOk(cx, children) && Ready(cx, entered0, bb)
    requires KidsDone(cx, entered0, entered, bb, kids)
    requires bb in children && k in children[bb] && k !in kids && kids <= children[bb]
    requires SameStacks(cx, vs0, vs) && forall x :: x in cx.allocas ==> TopIs(vs0, x, OutOperand(cx, bb, x))
    ensures Ready(cx, entered, k) && StacksInherit(cx, vs, k) && bb in cx.id && k in cx.id && cx.id[k] < cx.id[bb]
    ensures k in cx.t
  {
    assert ChildrenAre(cx.t, children, bb);
    KidReady(cx, entered0, entered, bb, kids, k);
    KidInherits(cx, vs, vs0, bb, k);
  }

  lemma KidFinished(cx: Context, finished0: set<Block>, finished: set<Block>, bb: Block, kids: set<Block>, k: Block)
    requires KidsFinished(cx, finished0, finished, bb, kids) && k in cx.t
    ensures KidsFinished(cx, finished0, finished + Subtree(cx, k), bb, kids + {k})
  {
    forall c
      ensures c in finished + Subtree(cx, k) <==> c in finished0 || UnderKid(cx, kids + {k}, c)
    {
      if UnderKid(cx, kids, c) {
        var l :| l in kids && OnChain(cx.id, cx.t, l, c);
        assert l in kids + {k};
      }
      if c in Subtree(cx, k) {
        assert k in kids + {k};
      }
    }
  }

  lemma SameStacksTrans(cx: Context, a: Stacks, b: Stacks, c: Stacks)
    requires SameStacks(cx, a, b) && SameStacks(cx, b, c)
    ensures SameStacks(cx, a, c)
  {
  }

  lemma KidsEnd(cx: Context, children: map<Block, set<Block>>, entered0: set<Block>, entered: set<Block>,
                finished0: set<Block>, finished: set<Block>, bb: Block, kids: set<Block>)
    requires ChildrenOk(cx, children) && KidsDone(cx, entered0, entered, bb, kids)
    requires KidsFinished(cx, finished0, finished, bb, kids) && bb !in finished0
    requires bb in children && kids == children[bb]
    ensures entered == entered0 + Subtree(cx, bb)
    ensures bb !in finished && finished + {bb} == finished0 + Subtree(cx, bb)
  {
    assert ChildrenAre(cx.t, children, bb);
    AllKidsDone(cx, entered0, entered, bb, kids);
    assert KidsDone(cx, finished0, finished + {bb}, bb, kids);
    AllKidsDone(cx, finished0, finished + {bb}, bb, kids);
    if UnderKid(cx, kids, bb) {
      var k :| k in kids && OnChain(cx.id, cx.t, k, bb);
      ChainRises(cx.id, cx.t, k, bb);
    }
  }

  // Leaving a block.

  lemma PopFacts(cx: Context, dsts: seq<seq<Name>>, phi2val: map<Name, Name>, geps: set<Name>,
      children: map<Block, set<Block>>, blocks: seq<BasicBlock>, vs: Stacks, f: Operand -> Operand, done: set<Name>,
      entered: set<Block>, finished: set<Block>, bb: Block)
    requires Setting(cx, dsts, phi2val, geps, children) && bb < |blocks| && bb !in finished
    requires WalkInv(cx, dsts, blocks, vs, f, done, entered, finished)
    ensures SourceOk(cx) && View(cx, f, blocks, finished) && IsPart(cx, done, f) && KeysOk(cx, vs)
    ensures PhiView(cx, dsts, blocks, entered, ENTRY, {})
    ensures bb < |dsts| && |blocks[bb].phis| == |dsts[bb]| && |blocks[bb].body| == |Body(cx, bb)|
  {
    assert PhiViewBlock(cx, dsts[bb], blocks[bb].phis, bb, entered, ENTRY, {});
    assert ViewBlock(cx, f, blocks, finished, bb);
  }

  lemma KeysPop(cx: Context, vs: Stacks, x: Name)
    requires KeysOk(cx, vs) && x in vs && vs[x] != []
    ensures KeysOk(cx, Pop(vs, x))
  {
  }

  lemma KeptNone(allocas: set<Name>, body: seq<Instr>)
    ensures [] == DropStores(allocas, body[|body|..])
  {
  }

  lemma KeptOne(allocas: set<Name>, body: seq<Instr>, i: nat)
    requires i < |body|
    ensures DropStores(allocas, body[i..]) == (if IsSlotStore(allocas, body[i]) then [] else [body[i]])
            + DropStores(allocas, body[i + 1..])
  {
    assert body[i..][1..] == body[i + 1..];
  }

  lemma EraseDone(cx: Context, dsts: seq<seq<Name>>, blocks: seq<BasicBlock>, vs: Stacks, f: Operand -> Operand,
                  done: set<Name>, entered: set<Block>, finished: set<Block>, bb: Block)
    requires WalkInv(cx, dsts, blocks, vs, f, done, entered, finished)
    requires bb < |blocks| && bb in entered && bb !in finished
    ensures WalkInv(cx, dsts, blocks[bb := blocks[bb].(body := DropStores(cx.allocas, blocks[bb].body))], vs, f, done,
            entered, finished + {bb})
  {
    hide SourceOk, View, KeysOk, IsPart, DoneUpTo, PhiViewBlock;
    EraseView(cx, f, blocks, finished, bb);
    var blocks' := blocks[bb := blocks[bb].(body := DropStores(cx.allocas, blocks[bb].body))];
    forall b | 0 <= b < |blocks'|
      ensures PhiViewBlock(cx, dsts[b], blocks'[b].phis, b, entered, ENTRY, {})
    {
      assert PhiViewBlock(cx, dsts[b], blocks[b].phis, b, entered, ENTRY, {});
      assert blocks'[b].phis == blocks[b].phis;
    }
  }

  lemma RenameFacts(cx: Context, dsts: seq<seq<Name>>, phi2val: map<Name, Name>, geps: set<Name>,
      children: map<Block, set<Block>>, blocks: seq<BasicBlock>, vs: Stacks, f: Operand -> Operand, done: set<Name>,
      entered: set<Block>, finished: set<Block>, bb: Block)
    requires Setting(cx, dsts, phi2val, geps, children) && Ready(cx, entered, bb)
    requires WalkInv(cx, dsts, blocks, vs, f, done, entered, finished)
    ensures SourceOk(cx) && GraphOk(cx) && DstsOk(cx, dsts) && ChildrenOk(cx, children)
    ensures bb in cx.t && bb in cx.id && bb in children && bb < |blocks| == |dsts| == |cx.blocks| && bb !in entered
    ensures bb !in finished
  {
    SelfInSubtree(cx, bb);
    assert ChildrenAre(cx.t, children, bb);
  }

  lemma MidFacts(cx: Context, dsts: seq<seq<Name>>, blocks: seq<BasicBlock>, base: Stacks, vs: Stacks,
      f: Operand -> Operand, done: set<Name>, entered: set<Block>, finished: set<Block>, bb: Block)
    requires MidInv(cx, dsts, blocks, base, vs, f, done, entered, finished, bb, |Body(cx, bb)|) && GraphOk(cx)
    ensures PhiView(cx, dsts, blocks, entered, ENTRY, {}) && |blocks| == |cx.blocks|
    ensures bb in cx.t && bb < |cx.g.succs| && bb !in entered && bb !in finished && TreeOk(cx)
    ensures SourceOk(cx) && Ready(cx, entered, bb) && bb < |dsts|
    ensures Pushed(cx, base, vs, dsts[bb], bb, |dsts[bb]|, |Body(cx, bb)|)
  {
    SelfInSubtree(cx, bb);
  }

  lemma FilledDone(cx: Context, dsts: seq<seq<Name>>, blocks0: seq<BasicBlock>, blocks: seq<BasicBlock>, base: Stacks,
      vs: Stacks, f: Operand -> Operand, done: set<Name>, entered: set<Block>, finished: set<Block>, bb: Block,
      filled: set<Block>)
    requires MidInv(cx, dsts, blocks0, base, vs, f, done, entered, finished, bb, |Body(cx, bb)|) && DstsOk(cx, dsts)
    requires SameText(blocks0, blocks)
    requires PhiView(cx, dsts, blocks, entered, bb, filled) && forall s :: Edge(cx.g, bb, s) ==> s in filled
    ensures WalkInv(cx, dsts, blocks, vs, f, done, entered + {bb}, finished)
  {
    EnterDone(cx, dsts, blocks0, blocks, base, vs, f, done, entered, finished, bb, filled);
  }

  lemma LeaveFacts(cx: Context, dsts: seq<seq<Name>>, blocks: seq<BasicBlock>, base: Stacks, vs0: Stacks, vs: Stacks,
      f: Operand -> Operand, done: set<Name>, entered: set<Block>, finished: set<Block>, bb: Block)
    requires WalkInv(cx, dsts, blocks, vs, f, done, entered, finished) && bb < |dsts|
    requires Pushed(cx, base, vs0, dsts[bb], bb, |dsts[bb]|, |Body(cx, bb)|) && SameStacks(cx, vs0, vs)
    ensures |blocks| == |cx.blocks| && Pushed(cx, base, vs, dsts[bb], bb, |dsts[bb]|, |Body(cx, bb)|)
  {
    PushedSame(cx, base, vs0, vs, dsts[bb], bb);
  }

  lemma WalkStacks(cx: Context, dsts: seq<seq<Name>>, blocks: seq<BasicBlock>, vs0: Stacks, vs: Stacks,
      f: Operand -> Operand, done: set<Name>, entered: set<Block>, finished: set<Block>)
    requires WalkInv(cx, dsts, blocks, vs0, f, done, entered, finished) && KeysOk(cx, vs)
    ensures WalkInv(cx, dsts, blocks, vs, f, done, entered, finished)
  {
  }
}
