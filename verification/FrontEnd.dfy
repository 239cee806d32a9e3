/** A lowered function: its meaning, and what the passes may rely on. */
module FrontEnd {
  import opened ControlFlow
  import opened DominatorTree
  import opened Ir
  import opened SysY
  import opened Lowering
  import opened LoweringMeaning
  import opened Builder
  import opened Liveness
  import opened Promotion
  import opened Source
  import opened StorePaths
  import Mem2RegRun
  import Pipeline
  import PromotedForm
  import Programs

  /** Interpreter and lowered function, each with any fuel: they agree once both have ended, and each
      ends if the other does, unless a variable is read before it has a value. */
  ghost predicate SameMeaning(d: Definition, fn: Programs.Function) {
    forall fr: Frame, h: Heap, n: nat, fuel: nat {:trigger RunsAgree(fr, d, fn.blocks, h, n, fuel)} ::
      OpsOk(fr.world) && fr.allocas == fn.slots ==> RunsAgree(fr, d, fn.blocks, h, n, fuel)
  }

  ghost predicate RunsAgree(fr: Frame, d: Definition, out: seq<BasicBlock>, h: Heap, n: nat, fuel: nat) {
    var r := InterpBody(EnvOf(fr), fr.args, |d.params|, d.body, n, h);
    var o := Run(fr, out, fuel, ENTRY, None, Begin(h), []);
    && (!r.flow.NoFuel? && !r.flow.Undefined? && !o.OutOfFuel? ==> SameEnding(EndingOf(r, DefaultReturn(d.result)), o))
    && (!r.flow.NoFuel? && !r.flow.Undefined? ==>
          exists k :: !Run(fr, out, k, ENTRY, None, Begin(h), []).OutOfFuel?)
    && (!o.OutOfFuel? ==> !InterpBody(EnvOf(fr), fr.args, |d.params|, d.body, fuel, h).flow.NoFuel?)
  }

  /** The graph of a finished function is what the dominator analysis and Mem2Reg ask for. */
  lemma GraphIsValid(g: Cfg, succs: seq<seq<Block>>, preds: seq<seq<Block>>)
    requires ListsOk(g, succs, preds) && Complete(g) && |g| > 0
    ensures Mem2RegRun.Shape(Graph(succs, preds), Finish(g)) && forall b :: !Edge(Graph(succs, preds), b, ENTRY)
  {
    var gr := Graph(succs, preds);
    forall a: Block, b: Block | Edge(gr, a, b)
      ensures b < |gr.succs| && a in gr.preds[b]
    {
      assert b in multiset(succs[a]) && multiset(succs[a])[b] == multiset(preds[b])[a];
    }
    forall a: Block, b: Block | b < |gr.preds| && a in gr.preds[b]
      ensures Edge(gr, a, b)
    {
      assert a in multiset(preds[b]) && multiset(succs[a])[b] == multiset(preds[b])[a];
    }
  }

  /** All that the builder delivers. */
  ghost predicate Built(g: Cfg, succs: seq<seq<Block>>, preds: seq<seq<Block>>, t: Table, names: nat) {
    ListsOk(g, succs, preds) && Complete(g) && |g| > 0 && NamesOk(g, t, names) && DomOk(g, t.dom)
  }

  // ----- Names -----

  /** Every path to b goes through the blocks of dom[b]. */
  lemma {:induction false} KnownDominates(g: Cfg, succs: seq<seq<Block>>, preds: seq<seq<Block>>, dom: seq<set<Block>>,
      w: seq<Block>, a: Block, b: Block)
    requires ListsOk(g, succs, preds) && DomOk(g, dom)
    requires WalkTo(Graph(succs, preds), w, ENTRY, b) && b < |dom| && a in dom[b]
    ensures a in w
    decreases |w|
  {
    if |w| == 1 {
      assert a == ENTRY == w[0];
    } else if a == b {
      assert w[|w| - 1] == a;
    } else {
      var v, p := w[..|w| - 1], w[|w| - 2];
      assert Edge(Graph(succs, preds), w[|w| - 2], w[|w| - 2 + 1]);
      EdgeIsTarget(g, succs, preds, p, b);
      assert MayJump(dom, p, b);
      assert Walk(Graph(succs, preds), v);
      KnownDominates(g, succs, preds, dom, v, a, p);
    }
  }

  lemma DominatesKnown(g: Cfg, succs: seq<seq<Block>>, preds: seq<seq<Block>>, dom: seq<set<Block>>, a: Block, b: Block)
    requires ListsOk(g, succs, preds) && DomOk(g, dom) && b < |dom| && a in dom[b]
    ensures Dominates(Graph(succs, preds), a, b)
  {
    hide ListsOk, DomOk, WalkTo;
    forall w | WalkTo(Graph(succs, preds), w, ENTRY, b)
      ensures a in w
    {
      KnownDominates(g, succs, preds, dom, w, a, b);
    }
  }

  lemma OperandIsUsable(g: Cfg, succs: seq<seq<Block>>, preds: seq<seq<Block>>, t: Table, names: nat, b: Block, i: nat,
      o: Operand)
    requires Built(g, succs, preds, t, names) && DefinedBefore(t, b, i, o)
    ensures Mem2RegRun.UseOk(Graph(succs, preds), t.loc, b, i, o)
  {
    hide ListsOk, DomOk, Complete, Dominates, BlockNamed, Defined;
    if o.Ref? && t.loc[o.name].b != b { DominatesKnown(g, succs, preds, t.dom, t.loc[o.name].b, b); }
  }

  /** A finished function is in static single assignment form, and its variables are promotable. */
  lemma FunctionIsOk(g: Cfg, succs: seq<seq<Block>>, preds: seq<seq<Block>>, t: Table, names: nat)
    requires Built(g, succs, preds, t, names)
    ensures Mem2RegRun.FunctionOk(Graph(succs, preds), {}, Finish(g), t.loc, t.slots)
  {
    hide ListsOk, NamesOk, DomOk, LocOk, PointersOk, Mem2RegRun.GepNames, Mem2RegRun.BlockUsesOk, Mem2RegRun.Shape,
         Promotion.IsAlloca;
    var gr, out := Graph(succs, preds), Finish(g);
    GraphIsValid(g, succs, preds);
    NamesAreLocated(g, succs, preds, t, names);
    SlotsAreAllocas(g, succs, preds, t, names);
    forall b: Block | b < |out|
      ensures Mem2RegRun.BlockUsesOk(gr, out, t.loc, t.slots, b)
    {
      BlockIsOk(g, succs, preds, t, names, b);
    }
  }

  lemma SlotsAreAllocas(g: Cfg, succs: seq<seq<Block>>, preds: seq<seq<Block>>, t: Table, names: nat)
    requires Complete(g) && NamesOk(g, t, names)
    ensures forall a :: a in t.slots ==>
              Promotion.IsAlloca(Mem2RegRun.Bare(Graph(succs, preds), Finish(g), t.loc, t.slots), a)
  {
    hide BlockNamed, Defined;
  }

  lemma InstrIn(g: Cfg, t: Table, names: nat, b: Block, i: nat)
    requires NamesOk(g, t, names) && b < |g| && i < |g[b].body|
    ensures InstrNamed(t, b, i, g[b].body[i])
  {
    assert BlockNamed(t, b, g[b]);
    hide InstrNamed;
  }

  lemma NamesAreLocated(g: Cfg, succs: seq<seq<Block>>, preds: seq<seq<Block>>, t: Table, names: nat)
    requires Complete(g) && NamesOk(g, t, names)
    ensures var src := Mem2RegRun.Bare(Graph(succs, preds), Finish(g), t.loc, t.slots);
            LocOk(src) && PointersOk(src) && Mem2RegRun.GepNames(Finish(g), t.loc, {})
  {
    hide BlockNamed, NamesOk, DefinedBefore;
    var out := Finish(g);
    var src := Mem2RegRun.Bare(Graph(succs, preds), out, t.loc, t.slots);
    forall b: Block, i: nat
      ensures Located(src, b, i) && (Accesses(src, b, i) ==> PointerOk(src, Body(src, b)[i].ptr))
    {
      if b < |g| && i < |g[b].body| { InstrIn(g, t, names, b, i); }
    }
    forall d | d in t.loc
      ensures d.Tmp? && IsDefinition(src, d, t.loc[d]) && !out[t.loc[d].b].body[t.loc[d].i].Gep?
    {
      NameIn(g, t, names, d);
      InstrIn(g, t, names, t.loc[d].b, t.loc[d].i);
    }
  }

  lemma NameIn(g: Cfg, t: Table, names: nat, d: Name)
    requires NamesOk(g, t, names) && d in t.loc
    ensures d.Tmp? && Defined(g, t.loc[d], d)
  {
    hide BlockNamed, Defined;
  }

  lemma BlockIsOk(g: Cfg, succs: seq<seq<Block>>, preds: seq<seq<Block>>, t: Table, names: nat, b: Block)
    requires Built(g, succs, preds, t, names) && b < |g|
    ensures Mem2RegRun.BlockUsesOk(Graph(succs, preds), Finish(g), t.loc, t.slots, b)
  {
    hide Built, DefinedBefore, Mem2RegRun.UseOk, NamesOk;
    BuiltBlock(g, succs, preds, t, names, b);
    var bb := Finish(g)[b];
    forall i, o | 0 <= i < |bb.body| && o in Operands(bb.body[i])
      ensures Mem2RegRun.UseOk(Graph(succs, preds), t.loc, b, i, o)
    {
      assert InstrNamed(t, b, i, bb.body[i]);
      OperandIsUsable(g, succs, preds, t, names, b, i, o);
    }
    forall o | o in TermOperands(bb.term)
      ensures Mem2RegRun.UseOk(Graph(succs, preds), t.loc, b, |bb.body|, o) && !IsSlot(t.slots, o)
    {
      OperandIsUsable(g, succs, preds, t, names, b, |bb.body|, o);
    }
    forall i | 0 <= i < |bb.body|
      ensures Mem2RegRun.AddressOnly(t.slots, bb.body[i])
    {
      assert InstrNamed(t, b, i, bb.body[i]);
      AccessIsAddress(t.slots, bb.body[i]);
    }
  }

  lemma BuiltBlock(g: Cfg, succs: seq<seq<Block>>, preds: seq<seq<Block>>, t: Table, names: nat, b: Block)
    requires Built(g, succs, preds, t, names) && b < |g|
    ensures BlockNamed(t, b, g[b]) && Finish(g)[b].body == g[b].body && g[b].term == Some(Finish(g)[b].term)
    ensures NamesOk(g, t, names)
  {
    hide BlockNamed, Defined, ListsOk, DomOk;
  }

  lemma AccessIsAddress(slots: set<Name>, ins: Instr)
    requires AccessOk(slots, ins)
    ensures Mem2RegRun.AddressOnly(slots, ins)
  {
  }

  // ----- Variables that always have a value -----

  /** If every declaration gives its variable a value, each load is preceded by a store on every path. */
  lemma StrictIsStored(g: Cfg, succs: seq<seq<Block>>, preds: seq<seq<Block>>, t: Table, names: nat)
    requires Built(g, succs, preds, t, names) && t.strict
    ensures Mem2RegRun.LoadsStored(Graph(succs, preds), Finish(g), t.slots)
  {
    hide Built, Reachable, StoreBefore;
    var gr, out := Graph(succs, preds), Finish(g);
    forall b: Block, i: nat | Mem2RegRun.SlotLoad(gr, out, t.slots, b, i)
      ensures StoreBefore(gr, out, b, i, out[b].body[i].ptr.name)
    {
      LoadIsStored(g, succs, preds, t, names, b, i);
    }
  }

  lemma LoadIsStored(g: Cfg, succs: seq<seq<Block>>, preds: seq<seq<Block>>, t: Table, names: nat, b: Block, i: nat)
    requires Built(g, succs, preds, t, names) && t.strict
    requires Mem2RegRun.SlotLoad(Graph(succs, preds), Finish(g), t.slots, b, i)
    ensures StoreBefore(Graph(succs, preds), Finish(g), b, i, Finish(g)[b].body[i].ptr.name)
  {
    hide ListsOk, NamesOk, DomOk;
    var gr, out := Graph(succs, preds), Finish(g);
    var x := out[b].body[i].ptr.name;
    BuiltBlock(g, succs, preds, t, names, b);
    InstrIn(g, t, names, b, i);
    var l := t.stored[x];
    StoredIs(g, t, names, x);
    var w :| WalkTo(gr, w, ENTRY, b);
    if l.b == b {
      StoreFound(out[b].body, l.i, i, x);
    } else {
      KnownDominates(g, succs, preds, t.dom, w, l.b, b);
      BuiltBlock(g, succs, preds, t, names, l.b);
      StoreFound(out[l.b].body, l.i, |out[l.b].body|, x);
      var k :| 0 <= k < |w| && w[k] == l.b;
      assert StoreOn(out, w, k, x);
    }
  }

  lemma StoredIs(g: Cfg, t: Table, names: nat, x: Name)
    requires NamesOk(g, t, names) && x in t.stored
    ensures IsStore(g, t.stored[x], x)
  {
    hide BlockNamed, Defined;
  }

  lemma {:induction false} StoreFound(body: seq<Instr>, j: nat, i: nat, x: Name)
    requires j < i <= |body| && body[j].Store? && body[j].ptr == Ref(x)
    ensures LastStore(body, i, x).Some?
    decreases i
  {
    if j < i - 1 { StoreFound(body, j, i - 1, x); }
  }

  // ----- A function of a program -----

  /** What has been built is a function the passes take. */
  lemma LoweredIsTyped(g: Cfg, gr: Graph, t: Table, names: nat, fn: Programs.Function)
    requires Complete(g) && NamesOk(g, t, names) && fn.blocks == Finish(g) && fn.pointers == {} && fn.slots == t.slots
    requires t.arrays == Arrays(fn.params)
    ensures PromotedForm.FunctionTyped(fn) && PromotedForm.UnreachedOk(fn, gr, t.loc)
  {
    hide NamesOk;
    forall b: Block | b < |fn.blocks|
      ensures PromotedForm.UnreachedBlockOk(fn, gr, t.loc, b)
      ensures forall i :: 0 <= i < |fn.blocks[b].body| ==> PromotedForm.InstrTyped(fn, b, fn.blocks[b].body[i])
    {
      BlockIn(g, t, names, b);
      var bb := fn.blocks[b];
      forall i | 0 <= i < |bb.body|
        ensures PromotedForm.UnreachedInstrOk(fn, gr, t.loc, b, i, bb.body[i])
        ensures PromotedForm.InstrTyped(fn, b, bb.body[i])
      {
        assert InstrNamed(t, b, i, bb.body[i]);
        InstrIsTyped(g, t, names, fn, b, i);
      }
    }
  }

  lemma BlockIn(g: Cfg, t: Table, names: nat, b: Block)
    requires Complete(g) && NamesOk(g, t, names) && b < |g|
    ensures BlockNamed(t, b, g[b]) && Finish(g)[b].body == g[b].body && g[b].term == Some(Finish(g)[b].term)
  {
    hide BlockNamed, Defined;
  }

  /** The variable of an array parameter is stored to once, at the start. */
  lemma InstrIsTyped(g: Cfg, t: Table, names: nat, fn: Programs.Function, b: Block, i: nat)
    requires Complete(g) && NamesOk(g, t, names) && fn.blocks == Finish(g) && fn.pointers == {} && fn.slots == t.slots
    requires t.arrays == Arrays(fn.params) && b < |g| && i < |g[b].body|
    ensures PromotedForm.InstrTyped(fn, b, fn.blocks[b].body[i])
  {
    hide NamesOk, BlockNamed, DefinedBefore, Known;
    BlockIn(g, t, names, b);
    InstrIn(g, t, names, b, i);
    var ins := fn.blocks[b].body[i];
    if ins.Store? && ins.ptr.Ref? && PromotedForm.PointerSlot(fn, ins.ptr.name) {
      var c, j :| PromotedForm.StoresPointer(fn, ins.ptr.name, c, j);
      BlockIn(g, t, names, c);
      InstrIn(g, t, names, c, j);
    }
  }

  ghost predicate FitsPasses(fn: Programs.Function, inp: Pipeline.Input) {
    Mem2RegRun.FunctionOk(inp.g, inp.geps, fn.blocks, inp.loc, fn.slots) && Pipeline.InputTyped(fn, inp)
  }

  /** The names of a finished function, and its variables. */
  method CollectNames(out: seq<BasicBlock>, ghost g: Cfg, ghost t: Table, ghost names: nat)
      returns (loc: map<Name, Loc>, slots: set<Name>)
    requires Complete(g) && NamesOk(g, t, names) && out == Finish(g)
    ensures loc == t.loc && slots == t.slots
  {
    hide NamesOk;
    loc, slots := map[], {};
    for b := 0 to |out|
      invariant Part(t, loc, slots)
      invariant forall c :: 0 <= c < b ==> NamesIn(out[c].body, |out[c].body|, loc, slots)
    {
      loc, slots := CollectBlock(out[b].body, b, loc, slots, g, t, names);
    }
    forall d | d in t.loc
      ensures d in loc && (d in t.slots ==> d in slots)
    {
      SlotLocated(g, t, names, d);
      assert NamesIn(out[t.loc[d].b].body, |out[t.loc[d].b].body|, loc, slots);
    }
    SlotsLocated(g, t, names);
  }

  lemma SlotLocated(g: Cfg, t: Table, names: nat, d: Name)
    requires NamesOk(g, t, names) && d in t.loc
    ensures Defined(g, t.loc[d], d) && (d in t.slots ==> g[t.loc[d].b].body[t.loc[d].i].Alloca?)
  {
    hide BlockNamed;
  }

  lemma SlotsLocated(g: Cfg, t: Table, names: nat)
    requires NamesOk(g, t, names)
    ensures forall a :: a in t.slots ==> a in t.loc
  {
    hide BlockNamed, Defined;
  }

  ghost predicate Part(t: Table, loc: map<Name, Loc>, slots: set<Name>) {
    (forall d :: d in loc ==> d in t.loc && loc[d] == t.loc[d]) && slots <= t.slots
  }

  /** The results of the first n instructions are there. */
  ghost predicate NamesIn(body: seq<Instr>, n: nat, loc: map<Name, Loc>, slots: set<Name>) {
    forall j {:trigger body[j]} :: 0 <= j < n <= |body| && !body[j].Store? ==>
      body[j].dst in loc && (body[j].Alloca? ==> body[j].dst in slots)
  }

  method CollectBlock(body: seq<Instr>, b: Block, loc0: map<Name, Loc>, slots0: set<Name>, ghost g: Cfg,
      ghost t: Table, ghost names: nat) returns (loc: map<Name, Loc>, slots: set<Name>)
    requires NamesOk(g, t, names) && b < |g| && body == g[b].body && Part(t, loc0, slots0)
    ensures Part(t, loc, slots) && NamesIn(body, |body|, loc, slots) && loc0.Keys <= loc.Keys && slots0 <= slots
  {
    hide NamesOk;
    loc, slots := loc0, slots0;
    for i := 0 to |body|
      invariant Part(t, loc, slots) && NamesIn(body, i, loc, slots) && loc0.Keys <= loc.Keys && slots0 <= slots
    {
      InstrIn(g, t, names, b, i);
      var ins := body[i];
      if !ins.Store? {
        loc := loc[ins.dst := Loc(b, i)];
        if ins.Alloca? {
          slots := slots + {ins.dst};
        }
      }
    }
  }

  // ----- Lowering a function -----

  /** What the builder makes of a function: its blocks, all different, with what is known of them. */
  ghost predicate LoweredFrom(d: Definition, g: Graph, fn: Programs.Function, cfg: Cfg, c: Code, t: Table, names: nat) {
    && WholeFunction(cfg, g.succs, g.preds, |d.params|, d.body, c, DefaultReturn(d.result))
    && Built(cfg, g.succs, g.preds, t, names) && t.strict == Initialised(d.body) && t.arrays == Arrays(d.params)
    && fn == Programs.Function(false, d.main, d.params, Finish(cfg), t.slots, {})
  }

  ghost predicate Lowered(d: Definition, g: Graph, fn: Programs.Function) {
    exists cfg, c, t, names :: LoweredFrom(d, g, fn, cfg, c, t, names)
  }

  /** Lowers a function; `ok` is false if the builder stops at a comparison of an i1 with an i32. */
  method LowerFunction(d: Definition) returns (ok: bool, fn: Programs.Function, inp: Pipeline.Input)
    requires !d.declared && Scoped(d)
    ensures ok <==> Typed(d.body)
    ensures ok ==> !fn.declared && Lowered(d, inp.g, fn) && SameMeaning(d, fn) && FitsPasses(fn, inp)
    ensures ok ==> (Initialised(d.body) ==> Mem2RegRun.LoadsStored(inp.g, fn.blocks, fn.slots))
    ensures ok ==> (JoinsReachable(inp.g) <==> NoDeadEdge(d.body))
  {
    hide ListsOk, NamesOk, DomOk, Placed, CodeSize, FunctionAt, Complete, Finish, JoinsReachable, Lowering.EndOf,
         WellScoped, NumberedOnce, Keeps, LoweredFrom, Built, FitsPasses, Mem2RegRun.LoadsStored, SameMeaning;
    var last := DefaultReturn(d.result);
    fn, inp := Programs.Function(false, d.main, d.params, [], {}, {}), Pipeline.Input(Graph([], []), {}, map[]);
    var builder := new SysYBuilder(d.vars, Initialised(d.body), Arrays(d.params));
    ghost var c;
    ok, c := builder.VisitFuncDef(|d.params|, d.body, last);
    if ok {
      ghost var cfg, t, names := builder.blocks, builder.table, builder.names;
      var out := Finish(builder.blocks);
      var loc, slots := CollectNames(out, cfg, t, names);
      inp := Pipeline.Input(Graph(builder.succs, builder.preds), {}, loc);
      fn := Programs.Function(false, d.main, d.params, out, slots, {});
      IsLowered(d, inp.g, fn, cfg, c, t, names);
      LoweredFits(d, inp, fn, cfg, c, t, names);
    }
  }

  lemma IsLowered(d: Definition, g: Graph, fn: Programs.Function, cfg: Cfg, c: Code, t: Table, names: nat)
    requires ListsOk(cfg, g.succs, g.preds) && Complete(cfg) && NamesOk(cfg, t, names) && DomOk(cfg, t.dom)
    requires FunctionAt(cfg, |d.params|, d.body, c, DefaultReturn(d.result)) && Placed(c, 1) && |cfg| == 1 + CodeSize(c)
    requires t.strict == Initialised(d.body) && t.arrays == Arrays(d.params)
    requires fn == Programs.Function(false, d.main, d.params, Finish(cfg), t.slots, {})
    ensures LoweredFrom(d, g, fn, cfg, c, t, names)
  {
    hide ListsOk, NamesOk, DomOk, Placed, CodeSize, FunctionAt, Complete;
  }

  lemma LoweredFits(d: Definition, inp: Pipeline.Input, fn: Programs.Function, cfg: Cfg, c: Code, t: Table, names: nat)
    requires LoweredFrom(d, inp.g, fn, cfg, c, t, names) && inp.loc == t.loc && inp.geps == {}
    ensures SameMeaning(d, fn) && FitsPasses(fn, inp)
    ensures Initialised(d.body) ==> Mem2RegRun.LoadsStored(inp.g, fn.blocks, fn.slots)
    ensures JoinsReachable(inp.g) <==> NoDeadEdge(d.body)
  {
    hide ListsOk, NamesOk, DomOk, Placed, CodeSize, FunctionAt, JoinsReachable, Mem2RegRun.LoadsStored, SameMeaning,
         NoDeadEdge, Mem2RegRun.FunctionOk, PromotedForm.FunctionTyped, PromotedForm.UnreachedOk, Complete, Initialised;
    FunctionIsOk(cfg, inp.g.succs, inp.g.preds, t, names);
    LoweredIsTyped(cfg, inp.g, t, names, fn);
    if t.strict { StrictIsStored(cfg, inp.g.succs, inp.g.preds, t, names); }
    JoinsReachableIff(cfg, inp.g.succs, inp.g.preds, |d.params|, d.body, c, DefaultReturn(d.result));
    Means(d, fn, cfg, c, t, names);
  }

  /** The dominator analysis gets through a lowered function exactly if no unreachable code of the
      source leads back to reachable code. */
  lemma LoweredJoins(d: Definition, g: Graph, fn: Programs.Function)
    requires Lowered(d, g, fn)
    ensures JoinsReachable(g) <==> NoDeadEdge(d.body)
  {
    hide Built, WholeFunction, JoinsReachable, NoDeadEdge;
    var cfg, c, t, names :| LoweredFrom(d, g, fn, cfg, c, t, names);
    JoinsReachableIff(cfg, g.succs, g.preds, |d.params|, d.body, c, DefaultReturn(d.result));
  }

  /** Where no if has branches that both jump away and every declaration gives a value, every load has a
      store before it: promotion takes all variables away. */
  lemma LoweredIsStored(d: Definition, inp: Pipeline.Input, fn: Programs.Function)
    requires Lowered(d, inp.g, fn) && Initialised(d.body) && AllReached(d.body)
    ensures Pipeline.AllStored(fn, inp)
  {
    hide Built, WholeFunction, Initialised, AllReached, StoreBefore, Reachable;
    var cfg, c, t, names :| LoweredFrom(d, inp.g, fn, cfg, c, t, names);
    AllReachedIff(cfg, inp.g.succs, inp.g.preds, |d.params|, d.body, c, DefaultReturn(d.result));
    forall b: Block, i: nat | Mem2RegRun.SlotLoad(inp.g, fn.blocks, fn.slots, b, i)
      ensures StoreBefore(inp.g, fn.blocks, b, i, fn.blocks[b].body[i].ptr.name)
    {
      LoadIsStored(cfg, inp.g.succs, inp.g.preds, t, names, b, i);
    }
  }

  lemma NamesAreOnce(g: Cfg, t: Table, names: nat)
    requires NamesOk(g, t, names)
    ensures NamedOnce(g) && AccessesSlots(g, t.slots)
  {
    hide NamesOk, DefinedBefore;
    forall b, i, d | DefinedAt(g, b, i, d)
      ensures d in t.loc && t.loc[d] == Loc(b, i)
    {
      InstrIn(g, t, names, b, i);
    }
    forall p: Point, ins | Has(g, p, ins) && (ins.Load? || ins.Store?)
      ensures IsSlot(t.slots, ins.ptr)
    {
      InstrIn(g, t, names, p.b, p.i);
    }
  }

  lemma Means(d: Definition, fn: Programs.Function, cfg: Cfg, c: Code, t: Table, names: nat)
    requires Complete(cfg) && NamesOk(cfg, t, names) && FunctionAt(cfg, |d.params|, d.body, c, DefaultReturn(d.result))
    requires fn.blocks == Finish(cfg) && fn.slots == t.slots
    ensures SameMeaning(d, fn)
  {
    hide NamesOk, FunctionAt, Complete, NamedOnce, AccessesSlots, OpsOk, Interp, Run;
    NamesAreOnce(cfg, t, names);
    forall fr: Frame, h: Heap, n: nat, fuel: nat | OpsOk(fr.world) && fr.allocas == fn.slots
      ensures RunsAgree(fr, d, fn.blocks, h, n, fuel)
    {
      LoweringPreservesMeaning(fr, cfg, |d.params|, d.body, c, DefaultReturn(d.result), h, n, fuel);
    }
  }

  // ----- Statements that the dominator analysis does not survive -----

  const A := LOrOne(LAndOne(Dynamic(Invoke(0, NoExps), false)))
  const B := LOrOne(LAndOne(Dynamic(Invoke(1, NoExps), false)))

  // while (a()) { if (b()) break; else continue; }
  const JUMPS := If(B, Break, Some(Continue))
  const LOOP := While(A, Stmt.Block(Item(JUMPS, Done)))

  // if (a()) { if (b()) return 1; else return 2; } return 3;
  const BOTH := If(B, Stmt.Return(Some(Num(1))), Some(Stmt.Return(Some(Num(2)))))
  const RETURNS :=
    Stmt.Block(Item(If(A, Stmt.Block(Item(BOTH, Done)), None), Item(Stmt.Return(Some(Num(3))), Done)))

  /** A function without parameters and variables. */
  function Plain(main: bool, result: ResultType, body: Stmt): Definition {
    Definition(false, main, [], result, 0, body)
  }

  /** The builder goes on behind an if both of whose branches jump away. */
  lemma StrandedBlock(s: Stmt)
    requires s == JUMPS || s == BOTH
    ensures Stranded(Stmt.Block(Item(s, Done)))
  {
    assert !Closes(s) && !Liveness.Reaches(s);
    assert !ItemsClose(Done);
    assert !ItemsClose(Item(s, Done)) && !ItemsReach(Item(s, Done));
  }

  lemma DeadEdges()
    ensures !NoDeadEdge(LOOP) && !NoDeadEdge(RETURNS)
  {
    StrandedBlock(JUMPS);
    StrandedBlock(BOTH);
    assert !NoDeadEdge(LOOP);
    var s := If(A, Stmt.Block(Item(BOTH, Done)), None);
    assert !NoDeadEdge(s);
    assert !ItemsNoDeadEdge(Item(s, Item(Stmt.Return(Some(Num(3))), Done)));
  }

  lemma Accepted()
    ensures WellScoped(LOOP, {}, false) && Typed(LOOP) && WellScoped(RETURNS, {}, false) && Typed(RETURNS)
  {
    hide *;
    CondsAccepted();
    LoopAccepted();
    ReturnsAccepted();
  }

  lemma CondsAccepted()
    ensures LOrInScope(A, {}) && LOrInScope(B, {}) && CondTyped(A) && CondTyped(B)
  {
    assert LeafInScope(A.land.exp, {}) && LeafInScope(B.land.exp, {});
  }

  /** A statement in front of accepted items. */
  lemma InFront(s: Stmt, rest: Items, inLoop: bool)
    requires WellScoped(s, {}, inLoop) && Typed(s) && !s.Declare? && ItemsScoped(rest, {}, inLoop) && ItemsTyped(rest)
    ensures WellScoped(Stmt.Block(Item(s, rest)), {}, inLoop) && Typed(Stmt.Block(Item(s, rest)))
    ensures ItemsScoped(Item(s, rest), {}, inLoop) && ItemsTyped(Item(s, rest))
  {
    assert {} + Declares(s) == {};
  }

  lemma Branches(cond: LOr, t: Stmt, e: Option<Stmt>, inLoop: bool)
    requires LOrInScope(cond, {}) && CondTyped(cond) && WellScoped(t, {}, inLoop) && Typed(t)
    requires e.Some? ==> WellScoped(e.value, {}, inLoop) && Typed(e.value)
    ensures WellScoped(If(cond, t, e), {}, inLoop) && Typed(If(cond, t, e))
  {
    hide LOrInScope, CondTyped;
  }

  lemma LoopAccepted()
    requires LOrInScope(A, {}) && LOrInScope(B, {}) && CondTyped(A) && CondTyped(B)
    ensures WellScoped(LOOP, {}, false) && Typed(LOOP)
  {
    hide LOrInScope, CondTyped, Declares;
    Branches(B, Break, Some(Continue), true);
    InFront(JUMPS, Done, true);
  }

  lemma ReturnsAccepted()
    requires LOrInScope(A, {}) && LOrInScope(B, {}) && CondTyped(A) && CondTyped(B)
    ensures WellScoped(RETURNS, {}, false) && Typed(RETURNS)
  {
    hide LOrInScope, CondTyped, Declares;
    Branches(B, Stmt.Return(Some(Num(1))), Some(Stmt.Return(Some(Num(2)))), false);
    InFront(BOTH, Done, false);
    Branches(A, Stmt.Block(Item(BOTH, Done)), None, false);
    InFront(Stmt.Return(Some(Num(3))), Done, false);
    InFront(If(A, Stmt.Block(Item(BOTH, Done)), None), Item(Stmt.Return(Some(Num(3))), Done), false);
  }

  lemma NothingDeclared()
    ensures Declared(LOOP) == {} && Declared(RETURNS) == {} && NumberedOnce(LOOP) && NumberedOnce(RETURNS)
    ensures Keeps(LOOP, {}) && Keeps(RETURNS, {})
  {
    var s := If(A, Stmt.Block(Item(BOTH, Done)), None);
    var rest := Item(Stmt.Return(Some(Num(3))), Done);
    assert ItemsDeclared(Item(JUMPS, Done)) == {} && ItemsDeclared(Item(BOTH, Done)) == {};
    assert Declared(s) == {} && ItemsDeclared(Item(s, rest)) == {};
    assert ItemsNumbered(Item(JUMPS, Done)) && ItemsNumbered(Item(BOTH, Done));
    assert NumberedOnce(s) && ItemsNumbered(Item(s, rest));
    assert ItemsKeep(Item(JUMPS, Done), {}) && ItemsKeep(Item(BOTH, Done), {});
    assert Keeps(s, {}) && ItemsKeep(Item(s, rest), {});
  }

  /** Both branches of the inner if jump away, but the builder goes on in its merge block, which then
      leads to the head of the loop or to the outer merge block: the builder takes these bodies, and the
      dominator analysis fails on whatever is lowered from them. */
  lemma DominatorsDefeated(body: Stmt, main: bool, result: ResultType, g: Graph, fn: Programs.Function)
    requires body == LOOP || body == RETURNS
    ensures Scoped(Plain(main, result, body)) && Typed(body)
    ensures Lowered(Plain(main, result, body), g, fn) ==> !JoinsReachable(g)
  {
    hide Lowered, JoinsReachable, NoDeadEdge, Typed, WellScoped, Keeps, Declared, NumberedOnce;
    Accepted();
    NothingDeclared();
    DeadEdges();
    if Lowered(Plain(main, result, body), g, fn) { LoweredJoins(Plain(main, result, body), g, fn); }
  }

  // if (a() && 1 < 2 && b()) return;
  const LEFT := LAndMore(LAndOne(Dynamic(Invoke(0, NoExps), false)), Folded(true))
  const FOLDED := If(LOrOne(LAndMore(LEFT, Dynamic(Invoke(1, NoExps), false))), Stmt.Return(None), None)

  /** The builder stops at this statement: it compares the folded constant, an i1, with an i32. */
  lemma FoldedComparisonStops(main: bool)
    ensures Scoped(Plain(main, VoidResult, FOLDED)) && !Typed(FOLDED)
  {
    assert LAndInScope(LEFT, {}) && LOrInScope(FOLDED.cond, {});
    assert WellScoped(FOLDED, {}, false);
    assert LAndType(LEFT).I1?;
    assert !LAndTyped(LAndMore(LEFT, Dynamic(Invoke(1, NoExps), false)));
  }
}
