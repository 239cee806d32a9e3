/** A function with a variable, a branch and a loop that meets all that is asked of the input of the
    passes, so their statements are about something. */
module LoopExample {
  import opened ControlFlow
  import opened Ir
  import opened Programs
  import opened Promotion
  import opened StorePaths
  import opened Mem2RegRun
  import opened PromotedForm
  import opened Pipeline

  // int x = 1; while (x != 0) x = x != 0; return x;

  const X := Tmp(0)
  const VALUE := Tmp(1)
  const TEST := Tmp(2)

  const ENTRY_BODY := [Alloca(X), Store(Ref(X), Imm(1))]
  const HEAD_BODY := [Load(VALUE, Ref(X)), Op(TEST, 0, [Ref(VALUE), Imm(0)])]
  const LOOP_BODY := [Store(Ref(X), Ref(TEST))]

  const BLOCKS := [
    BasicBlock([], ENTRY_BODY, Br(1)),
    BasicBlock([], HEAD_BODY, CondBr(Ref(TEST), 2, 3)),
    BasicBlock([], LOOP_BODY, Br(1)),
    BasicBlock([], [], Ret(Ref(VALUE)))]

  const G := Graph([[1], [2, 3], [1], []], [[], [0, 2], [1], [1]])
  const LOC: map<Name, Loc> := map[X := Loc(0, 0), VALUE := Loc(1, 0), TEST := Loc(1, 1)]
  const FUNCTION := Function(false, true, [], BLOCKS, {X}, {})
  const INPUT := Input(G, {}, LOC)

  lemma Edges(a: Block, b: Block)
    ensures Edge(G, a, b) <==> (a == 0 && b == 1) || (a == 1 && (b == 2 || b == 3)) || (a == 2 && b == 1)
  {
  }

  lemma GraphShape()
    ensures Shape(G, BLOCKS) && forall b :: !Edge(G, b, ENTRY)
  {
    forall a: Block, b: Block
      ensures Edge(G, a, b) <==> b < 4 && a in G.preds[b]
    {
      Edges(a, b);
    }
  }

  /** Control reaches the body and the end of the loop through its head. */
  lemma HeadDominates(b: Block)
    requires b == 2 || b == 3
    ensures Dominates(G, 1, b)
  {
    forall w | WalkTo(G, w, ENTRY, b)
      ensures 1 in w
    {
      assert Edge(G, w[|w| - 2], w[|w| - 2 + 1]);
      Edges(w[|w| - 2], b);
    }
  }

  lemma EntryDominates(b: Block)
    ensures Dominates(G, ENTRY, b)
  {
    forall w | WalkTo(G, w, ENTRY, b)
      ensures ENTRY in w
    {
      assert w[0] == ENTRY;
    }
  }

  lemma EveryBlockReachable(b: Block)
    requires b < 4
    ensures Reachable(G, b)
  {
    var w := if b == 0 then [0] else if b == 1 then [0, 1] else [0, 1, b];
    forall i | 0 <= i < |w| - 1
      ensures Edge(G, w[i], w[i + 1])
    {
      Edges(w[i], w[i + 1]);
    }
    assert WalkTo(G, w, ENTRY, b);
  }

  lemma Uses(b: Block)
    requires b < 4
    ensures BlockUsesOk(G, BLOCKS, LOC, {X}, b)
  {
    EntryDominates(b);
    if b >= 2 { HeadDominates(b); }
    hide Dominates;
    match b {
      case 0 => assert BLOCKS[b].body == ENTRY_BODY;
      case 1 => assert BLOCKS[b].body == HEAD_BODY;
      case 2 => assert BLOCKS[b].body == LOOP_BODY;
      case 3 => assert BLOCKS[b].body == [];
    }
  }

  lemma Definitions()
    ensures var src := Bare(G, BLOCKS, LOC, {X});
            LocOk(src) && IsAlloca(src, X) && PointersOk(src) && GepNames(BLOCKS, LOC, {})
  {
    var src := Bare(G, BLOCKS, LOC, {X});
    forall b: Block, i: nat
      ensures Located(src, b, i)
    {
      if b < 4 { assert Body(src, b) == [ENTRY_BODY, HEAD_BODY, LOOP_BODY, []][b]; }
    }
    forall b: Block, i: nat | Accesses(src, b, i)
      ensures PointerOk(src, Body(src, b)[i].ptr)
    {
      assert Body(src, b) == [ENTRY_BODY, HEAD_BODY, LOOP_BODY, []][b];
    }
  }

  lemma Stored()
    ensures LoadsStored(G, BLOCKS, {X})
  {
    forall b: Block, i: nat | SlotLoad(G, BLOCKS, {X}, b, i)
      ensures StoreBefore(G, BLOCKS, b, i, BLOCKS[b].body[i].ptr.name)
    {
      assert BLOCKS[b].body == [ENTRY_BODY, HEAD_BODY, LOOP_BODY, []][b];
      assert b == 1 && i == 0;
      Edges(0, 1);
      assert WalkTo(G, [0, 1], ENTRY, 1);
      assert LastStore(ENTRY_BODY, 2, X) == Some(Imm(1));
      assert StoreOn(BLOCKS, [0, 1], 0, X);
    }
  }

  lemma Types()
    ensures FunctionTyped(FUNCTION)
  {
    forall b: Block, i | b < |BLOCKS| && 0 <= i < |BLOCKS[b].body|
      ensures InstrTyped(FUNCTION, b, BLOCKS[b].body[i])
    {
      assert BLOCKS[b].body == [ENTRY_BODY, HEAD_BODY, LOOP_BODY, []][b];
      forall x, c: Block, j: nat
        ensures !StoresPointer(FUNCTION, x, c, j)
      {
        if c < 4 { assert BLOCKS[c].body == [ENTRY_BODY, HEAD_BODY, LOOP_BODY, []][c]; }
      }
    }
  }

  /** The loop can be optimised: the two passes ask nothing that it does not meet. */
  lemma LoopMeetsAll()
    ensures InputsOk([FUNCTION], [INPUT]) && InputsTyped([FUNCTION], [INPUT])
  {
    GraphShape();
    Definitions();
    Stored();
    Types();
    hide LocOk, PointersOk, LoadsStored, FunctionTyped, BlockUsesOk, GepNames, IsAlloca, Shape;
    forall b: Block | b < 4
      ensures Reachable(G, b) && BlockUsesOk(G, BLOCKS, LOC, {X}, b)
    {
      EveryBlockReachable(b);
      Uses(b);
    }
    hide Reachable;
    assert InputOk(FUNCTION, INPUT);
    assert InputTyped(FUNCTION, INPUT);
  }
}
