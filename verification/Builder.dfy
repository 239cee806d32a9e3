/** The lowering itself: visitors that emit blocks through an insertion point and stacks of targets. */
module Builder {
  import opened ControlFlow
  import opened Ir
  import opened SysY
  import opened Lowering
  import opened Promotion

  // ----- The graph under construction -----

  function TermTargets(bb: OpenBlock): seq<Block> {
    if bb.term.Some? then Targets(bb.term.value) else []
  }

  /** The successor lists are those of the terminators, the predecessor lists their transposes with
      multiplicity, and no branch goes back to the entry block. */
  ghost predicate ListsOk(g: Cfg, succs: seq<seq<Block>>, preds: seq<seq<Block>>) {
    && |g| == |succs| == |preds|
    && (forall b :: 0 <= b < |g| ==> succs[b] == TermTargets(g[b]))
    && (forall b, s :: 0 <= b < |g| && s in succs[b] ==> ENTRY < s < |g|)
    && (forall b, p :: 0 <= b < |g| && p in preds[b] ==> p < |g|)
    && Transposed(succs, preds)
  }

  /** b is a successor of a as often as a is a predecessor of b. */
  ghost predicate Transposed(succs: seq<seq<Block>>, preds: seq<seq<Block>>) {
    forall a, b {:trigger succs[a], preds[b]} :: 0 <= a < |succs| && 0 <= b < |preds| ==>
      multiset(succs[a])[b] == multiset(preds[b])[a]
  }

  lemma AddEdge(succs: seq<seq<Block>>, preds: seq<seq<Block>>, a: Block, b: Block)
    requires Transposed(succs, preds) && a < |succs| && b < |preds|
    ensures Transposed(succs[a := succs[a] + [b]], preds[b := preds[b] + [a]])
  {
    var s, p := succs[a := succs[a] + [b]], preds[b := preds[b] + [a]];
    forall x, y | 0 <= x < |s| && 0 <= y < |p|
      ensures multiset(s[x])[y] == multiset(p[y])[x]
    {
      assert multiset(succs[x])[y] == multiset(preds[y])[x];
    }
  }

  function Emit(g: Cfg, b: Block, ins: Instr): Cfg
    requires b < |g|
  {
    g[b := g[b].(body := g[b].body + [ins])]
  }

  function Terminate(g: Cfg, b: Block, t: Terminator): Cfg
    requires b < |g|
  {
    g[b := g[b].(term := Some(t))]
  }

  /** What the visitors have done since the graph was g0 with c0 as the block to insert into: other
      old blocks are untouched, and every block that is new or was c0 has been terminated, except
      those in `open`. */
  ghost predicate Grown(g0: Cfg, c0: Block, g: Cfg, open: set<Block>) {
    && Extends(g0, g)
    && (forall b {:trigger g[b]} :: 0 <= b < |g0| && b != c0 ==> g[b] == g0[b])
    && (forall b {:trigger g[b]} :: 0 <= b < |g| && (b == c0 || |g0| <= b) && b !in open ==> g[b].term.Some?)
    && (forall b :: b in open ==> b < |g| && (b == c0 || |g0| <= b))
  }

  lemma GrownRefl(g: Cfg, c: Block)
    requires c < |g|
    ensures Grown(g, c, g, {c})
  {
  }

  lemma GrownEmit(g0: Cfg, c0: Block, g: Cfg, open: set<Block>, b: Block, ins: Instr)
    requires Grown(g0, c0, g, open) && b in open && g[b].term.None?
    ensures Grown(g0, c0, Emit(g, b, ins), open)
    ensures Has(Emit(g, b, ins), At(b, |g[b].body|), ins) && Extends(g, Emit(g, b, ins))
  {
  }

  lemma GrownTerminate(g0: Cfg, c0: Block, g: Cfg, open: set<Block>, b: Block, t: Terminator)
    requires Grown(g0, c0, g, open) && b in open && g[b].term.None?
    ensures Grown(g0, c0, Terminate(g, b, t), open - {b})
    ensures Ends(Terminate(g, b, t), At(b, |g[b].body|), t) && Extends(g, Terminate(g, b, t))
  {
  }

  lemma GrownNew(g0: Cfg, c0: Block, g: Cfg, open: set<Block>)
    requires Grown(g0, c0, g, open)
    ensures Grown(g0, c0, g + [OpenBlock([], None)], open + {|g|})
    ensures Extends(g, g + [OpenBlock([], None)])
  {
  }

  lemma GrownThen(g0: Cfg, c0: Block, g1: Cfg, open1: set<Block>, c1: Block, g2: Cfg, open2: set<Block>)
    requires Grown(g0, c0, g1, open1) && c1 in open1 && Grown(g1, c1, g2, open2)
    ensures Grown(g0, c0, g2, (open1 - {c1}) + open2)
  {
    forall b | 0 <= b < |g0|
      ensures g0[b].body <= g2[b].body && (g0[b].term.Some? ==> g2[b] == g0[b])
      ensures b != c0 ==> g2[b] == g0[b]
    {
      assert g0[b].body <= g1[b].body <= g2[b].body;
    }
    forall b | 0 <= b < |g2| && (b == c0 || |g0| <= b) && b !in (open1 - {c1}) + open2
      ensures g2[b].term.Some?
    {
      if b < |g1| && b != c1 {
        assert g1[b].term.Some? && g2[b] == g1[b];
      }
    }
  }

  lemma ExtendsTrans(g: Cfg, g1: Cfg, g2: Cfg)
    requires Extends(g, g1) && Extends(g1, g2)
    ensures Extends(g, g2)
  {
    forall b | 0 <= b < |g|
      ensures g[b].body <= g2[b].body && (g[b].term.Some? ==> g2[b] == g[b])
    {
      assert g[b].body <= g1[b].body <= g2[b].body;
    }
  }

  lemma BranchLists(g: Cfg, succs: seq<seq<Block>>, preds: seq<seq<Block>>, b: Block, t: Block)
    requires ListsOk(g, succs, preds) && b < |g| && g[b].term.None? && ENTRY < t < |g|
    ensures ListsOk(Terminate(g, b, Br(t)), succs[b := succs[b] + [t]], preds[t := preds[t] + [b]])
  {
    AddEdge(succs, preds, b, t);
    hide Transposed;
    assert succs[b] == [];
  }

  lemma CondLists(g: Cfg, succs: seq<seq<Block>>, preds: seq<seq<Block>>, b: Block, c: Operand, t: Block, f: Block)
    requires ListsOk(g, succs, preds) && b < |g| && g[b].term.None? && ENTRY < t < |g| && ENTRY < f < |g|
    ensures var p := preds[t := preds[t] + [b]];
            ListsOk(Terminate(g, b, CondBr(c, t, f)), succs[b := succs[b] + [t] + [f]], p[f := p[f] + [b]])
  {
    hide Transposed;
    AddEdge(succs, preds, b, t);
    var s, p := succs[b := succs[b] + [t]], preds[t := preds[t] + [b]];
    AddEdge(s, p, b, f);
    assert succs[b] == [] && [] + [t] + [f] == [t, f];
    assert s[b := s[b] + [f]] == succs[b := succs[b] + [t] + [f]];
  }

  lemma OtherLists(g: Cfg, g': Cfg, succs: seq<seq<Block>>, preds: seq<seq<Block>>)
    requires ListsOk(g, succs, preds) && |g'| == |g| && forall b :: 0 <= b < |g| ==>
             TermTargets(g'[b]) == TermTargets(g[b])
    ensures ListsOk(g', succs, preds)
  {
  }

  lemma EmitLists(g: Cfg, succs: seq<seq<Block>>, preds: seq<seq<Block>>, b: Block, ins: Instr)
    requires ListsOk(g, succs, preds) && b < |g|
    ensures ListsOk(Emit(g, b, ins), succs, preds)
  {
    OtherLists(g, Emit(g, b, ins), succs, preds);
  }

  lemma ReturnLists(g: Cfg, succs: seq<seq<Block>>, preds: seq<seq<Block>>, b: Block, t: Terminator)
    requires ListsOk(g, succs, preds) && b < |g| && g[b].term.None? && (t.Ret? || t.RetVoid?)
    ensures ListsOk(Terminate(g, b, t), succs, preds)
  {
    OtherLists(g, Terminate(g, b, t), succs, preds);
  }

  lemma ListSizes(g: Cfg, succs: seq<seq<Block>>, preds: seq<seq<Block>>)
    requires ListsOk(g, succs, preds)
    ensures |g| == |succs| == |preds|
  {
  }

  lemma TerminateSize(g: Cfg, b: Block, t: Terminator)
    requires b < |g|
    ensures |Terminate(g, b, t)| == |g|
  {
  }

  lemma NewLists(g: Cfg, succs: seq<seq<Block>>, preds: seq<seq<Block>>)
    requires ListsOk(g, succs, preds)
    ensures ListsOk(g + [OpenBlock([], None)], succs + [[]], preds + [[]])
  {
    var s', p' := succs + [[]], preds + [[]];
    forall a, b | 0 <= a <= |g| && 0 <= b <= |g|
      ensures multiset(s'[a])[b] == multiset(p'[b])[a]
    {
      if a < |g| && b < |g| {
        assert multiset(succs[a])[b] == multiset(preds[b])[a];
      } else if a < |g| {
        assert b !in succs[a];
      } else if b < |g| {
        assert a !in preds[b];
      }
    }
  }

  // ----- Names -----

  /** What is known of names and blocks: where each result is defined, which results are allocas of
      variables, for each block some blocks that every path to it goes through, and the first store to each
      variable. With `strict`, it comes before every load of the variable. `arrays` are the variables of array
      parameters, which are not assigned to. */
  datatype Table = Table(
    loc: map<Name, Loc>,
    slots: set<Name>,
    dom: seq<set<Block>>,
    stored: map<Name, Loc>,
    strict: bool,
    arrays: set<nat>)

  /** The operand is no result, or that of an earlier instruction on every path. */
  ghost predicate DefinedBefore(t: Table, b: Block, i: nat, o: Operand) {
    o.Ref? ==>
      && o.name in t.loc
      && if t.loc[o.name].b == b then t.loc[o.name].i < i else b < |t.dom| && t.loc[o.name].b in t.dom[b]
  }

  predicate IsValue(slots: set<Name>, o: Operand) {
    o.Ref? ==> o.name !in slots
  }

  /** Variables occur as addresses of loads and stores only, and those access nothing else. */
  ghost predicate AccessOk(slots: set<Name>, ins: Instr) {
    match ins
    case Alloca(a) => a in slots
    case Load(d, p) => d !in slots && IsSlot(slots, p)
    case Store(p, v) => IsSlot(slots, p) && IsValue(slots, v)
    case Gep(_, _, _) => false
    case _ => ins.dst !in slots && forall o :: o in Operands(ins) ==> IsValue(slots, o)
  }

  /** A store to x comes before position i of block b on every path. */
  ghost predicate StoredBefore(t: Table, b: Block, i: nat, x: Name) {
    && x in t.stored
    && if t.stored[x].b == b then t.stored[x].i < i else b < |t.dom| && t.stored[x].b in t.dom[b]
  }

  /** Arguments are stored at the start only, each to the variable of its parameter. */
  predicate StoreTyped(arrays: set<nat>, b: Block, ins: Instr) {
    ins.Store? ==>
      && !ins.val.Global? && (ins.val.Arg? ==> b == ENTRY && ins.ptr == Ref(Slot(ins.val.i)))
      && (ins.ptr.Ref? && ins.ptr.name.Tmp? && ins.ptr.name.n in arrays ==> ins.val.Arg?)
  }

  ghost predicate InstrNamed(t: Table, b: Block, i: nat, ins: Instr) {
    && (!ins.Store? ==> ins.dst in t.loc && t.loc[ins.dst] == Loc(b, i)) && AccessOk(t.slots, ins)
    && StoreTyped(t.arrays, b, ins) && (ins.Load? && t.strict ==> StoredBefore(t, b, i, ins.ptr.name))
    && forall o :: o in Operands(ins) ==> DefinedBefore(t, b, i, o)
  }

  ghost predicate BlockNamed(t: Table, b: Block, bb: OpenBlock) {
    && (forall i :: 0 <= i < |bb.body| ==> InstrNamed(t, b, i, bb.body[i]))
    && (bb.term.Some? ==> forall o :: o in TermOperands(bb.term.value) ==>
          DefinedBefore(t, b, |bb.body|, o) && IsValue(t.slots, o))
  }

  /** The table finds the only definition of each name, names are numbered below `names`, and operands are
      results of earlier instructions. */
  ghost predicate NamesOk(g: Cfg, t: Table, names: nat) {
    && (forall b {:trigger g[b]} :: 0 <= b < |g| ==> BlockNamed(t, b, g[b]))
    && (forall d :: d in t.loc ==> d.Tmp? && d.n < names && Defined(g, t.loc[d], d))
    && (forall a :: a in t.slots ==> a in t.loc && Has(g, At(t.loc[a].b, t.loc[a].i), Alloca(a)))
    && (forall a :: a in t.stored ==> a in t.slots && IsStore(g, t.stored[a], a))
  }

  ghost predicate IsStore(g: Cfg, l: Loc, a: Name) {
    l.b < |g| && l.i < |g[l.b].body| && g[l.b].body[l.i].Store? && g[l.b].body[l.i].ptr == Ref(a)
  }

  ghost predicate Defined(g: Cfg, l: Loc, d: Name) {
    l.b < |g| && l.i < |g[l.b].body| && Defines(g[l.b].body[l.i], d)
  }

  /** A later table: nothing is lost, and no old result becomes a variable. */
  ghost predicate Grows(t0: Table, t1: Table) {
    && (forall d {:trigger d in t1.loc} {:trigger d in t0.loc} :: d in t0.loc ==> d in t1.loc && t1.loc[d] == t0.loc[d])
    && t0.slots <= t1.slots && (forall a :: a in t1.slots && a !in t0.slots ==> a !in t0.loc)
    && |t0.dom| <= |t1.dom| && t1.dom[..|t0.dom|] == t0.dom && t1.strict == t0.strict
    && t1.arrays == t0.arrays
    && (forall a {:trigger a in t1.stored} {:trigger a in t0.stored} ::
          a in t0.stored ==> a in t1.stored && t1.stored[a] == t0.stored[a])
  }

  lemma GrowsDom(t0: Table, t1: Table, b: Block)
    requires Grows(t0, t1) && b < |t0.dom|
    ensures b < |t1.dom| && t1.dom[b] == t0.dom[b]
  {
    assert t1.dom[..|t0.dom|][b] == t0.dom[b];
  }

  lemma BeforeStill(t0: Table, t1: Table, b: Block, i: nat, o: Operand)
    requires Grows(t0, t1) && DefinedBefore(t0, b, i, o)
    ensures DefinedBefore(t1, b, i, o) && (IsValue(t0.slots, o) ==> IsValue(t1.slots, o))
  {
    if o.Ref? && t0.loc[o.name].b != b { GrowsDom(t0, t1, b); }
  }

  lemma StoredStill(t0: Table, t1: Table, b: Block, i: nat, x: Name)
    requires Grows(t0, t1) && StoredBefore(t0, b, i, x)
    ensures StoredBefore(t1, b, i, x)
  {
    if t0.stored[x].b != b { GrowsDom(t0, t1, b); }
  }

  lemma InstrStill(t0: Table, t1: Table, b: Block, i: nat, ins: Instr)
    requires Grows(t0, t1) && InstrNamed(t0, b, i, ins)
    ensures InstrNamed(t1, b, i, ins)
  {
    forall o | o in Operands(ins)
      ensures DefinedBefore(t1, b, i, o) && (IsValue(t0.slots, o) ==> IsValue(t1.slots, o))
    {
      BeforeStill(t0, t1, b, i, o);
    }
    if ins.Load? && t0.strict { StoredStill(t0, t1, b, i, ins.ptr.name); }
    hide DefinedBefore, StoredBefore;
  }

  lemma BlockStill(t0: Table, t1: Table, b: Block, bb: OpenBlock)
    requires Grows(t0, t1) && BlockNamed(t0, b, bb)
    ensures BlockNamed(t1, b, bb)
  {
    hide InstrNamed, DefinedBefore, IsValue, Grows;
    forall i | 0 <= i < |bb.body|
      ensures InstrNamed(t1, b, i, bb.body[i])
    {
      InstrStill(t0, t1, b, i, bb.body[i]);
    }
    if bb.term.Some? {
      forall o | o in TermOperands(bb.term.value)
        ensures DefinedBefore(t1, b, |bb.body|, o) && IsValue(t1.slots, o)
      {
        BeforeStill(t0, t1, b, |bb.body|, o);
      }
    }
  }

  /** The operand may be used in block b, behind what is there. */
  ghost predicate Known(t: Table, b: Block, o: Operand) {
    o.Ref? ==> o.name in t.loc && b < |t.dom| && t.loc[o.name].b in t.dom[b]
  }

  /** A variable that has been stored to wherever block b is gone on with. */
  ghost predicate KnownStored(t: Table, b: Block, x: Name) {
    x in t.stored && b < |t.dom| && t.stored[x].b in t.dom[b]
  }

  lemma KnownBefore(g: Cfg, t: Table, names: nat, b: Block, o: Operand)
    requires NamesOk(g, t, names) && b < |g| && Known(t, b, o)
    ensures DefinedBefore(t, b, |g[b].body|, o)
  {
    if o.Ref? { assert Defined(g, t.loc[o.name], o.name); }
  }

  /** What an instruction to be added in block b must be like. */
  ghost predicate Addable(t: Table, b: Block, names: nat, ins: Instr) {
    && (!ins.Store? ==> ins.dst.Tmp? && ins.dst !in t.loc && ins.dst.n < names)
    && AccessOk(if ins.Alloca? then t.slots + {ins.dst} else t.slots, ins)
    && StoreTyped(t.arrays, b, ins) && (ins.Load? && t.strict ==> KnownStored(t, b, ins.ptr.name))
    && forall o :: o in Operands(ins) ==> Known(t, b, o)
  }

  /** The table after an instruction has been added at position i of block b. */
  ghost function Add(t: Table, ins: Instr, b: Block, i: nat): Table {
    if ins.Store? then
      if ins.ptr.Ref? && ins.ptr.name !in t.stored then t.(stored := t.stored[ins.ptr.name := Loc(b, i)]) else t
    else
      t.(loc := t.loc[ins.dst := Loc(b, i)], slots := if ins.Alloca? then t.slots + {ins.dst} else t.slots)
  }

  lemma AddGrows(t: Table, ins: Instr, b: Block, i: nat)
    requires !ins.Store? ==> ins.dst !in t.loc
    ensures Grows(t, Add(t, ins, b, i))
  {
  }

  lemma NewInstr(g: Cfg, t: Table, names: nat, b: Block, ins: Instr)
    requires NamesOk(g, t, names) && b < |g| && Addable(t, b, names, ins)
    ensures InstrNamed(Add(t, ins, b, |g[b].body|), b, |g[b].body|, ins)
  {
    var t', i := Add(t, ins, b, |g[b].body|), |g[b].body|;
    AddGrows(t, ins, b, i);
    forall o | o in Operands(ins)
      ensures DefinedBefore(t', b, i, o)
    {
      KnownBefore(g, t, names, b, o);
      BeforeStill(t, t', b, i, o);
    }
    if ins.Load? && t.strict { assert IsStore(g, t.stored[ins.ptr.name], ins.ptr.name); }
    hide NamesOk, DefinedBefore, Known, Grows;
  }

  lemma NamesEmit(g: Cfg, t: Table, names: nat, b: Block, ins: Instr)
    requires NamesOk(g, t, names) && b < |g| && g[b].term.None? && Addable(t, b, names, ins)
    ensures NamesOk(Emit(g, b, ins), Add(t, ins, b, |g[b].body|), names)
  {
    hide InstrNamed, DefinedBefore, IsValue, AccessOk, Known;
    var g', t' := Emit(g, b, ins), Add(t, ins, b, |g[b].body|);
    AddGrows(t, ins, b, |g[b].body|);
    NewInstr(g, t, names, b, ins);
    forall c | 0 <= c < |g'|
      ensures BlockNamed(t', c, g'[c])
    {
      BlockStill(t, t', c, g[c]);
    }
    DefinedStill(g, g', t, t', names, b, ins);
    StoresStill(g, g', t, t', names, b, ins);
  }

  lemma StoresStill(g: Cfg, g': Cfg, t: Table, t': Table, names: nat, b: Block, ins: Instr)
    requires NamesOk(g, t, names) && b < |g| && g' == Emit(g, b, ins) && t' == Add(t, ins, b, |g[b].body|)
    requires Addable(t, b, names, ins)
    ensures forall a :: a in t'.stored ==> a in t'.slots && IsStore(g', t'.stored[a], a)
  {
    hide NamesOk, Known;
    forall a | a in t'.stored
      ensures a in t'.slots && IsStore(g', t'.stored[a], a)
    {
      if a in t.stored { StoreIsThere(g, t, names, a); }
    }
  }

  lemma StoreIsThere(g: Cfg, t: Table, names: nat, a: Name)
    requires NamesOk(g, t, names) && a in t.stored
    ensures a in t.slots && IsStore(g, t.stored[a], a)
  {
  }

  lemma DefinedStill(g: Cfg, g': Cfg, t: Table, t': Table, names: nat, b: Block, ins: Instr)
    requires NamesOk(g, t, names) && b < |g| && Addable(t, b, names, ins)
    requires g' == Emit(g, b, ins) && t' == Add(t, ins, b, |g[b].body|)
    ensures forall d :: d in t'.loc ==> d.Tmp? && d.n < names && Defined(g', t'.loc[d], d)
    ensures forall a :: a in t'.slots ==> a in t'.loc && Has(g', At(t'.loc[a].b, t'.loc[a].i), Alloca(a))
  {
    hide BlockNamed, AccessOk, Known;
    forall d | d in t'.loc
      ensures d.Tmp? && d.n < names && Defined(g', t'.loc[d], d)
    {
      if d in t.loc { assert Defined(g, t.loc[d], d); }
    }
  }

  lemma NamesTerminate(g: Cfg, t: Table, names: nat, b: Block, term: Terminator)
    requires NamesOk(g, t, names) && b < |g|
    requires forall o :: o in TermOperands(term) ==> Known(t, b, o) && IsValue(t.slots, o)
    ensures NamesOk(Terminate(g, b, term), t, names)
  {
    hide InstrNamed, DefinedBefore, IsValue, Known;
    var g' := Terminate(g, b, term);
    forall o | o in TermOperands(term)
      ensures DefinedBefore(t, b, |g[b].body|, o)
    {
      KnownBefore(g, t, names, b, o);
    }
    forall c | 0 <= c < |g'|
      ensures BlockNamed(t, c, g'[c])
    {
      assert BlockNamed(t, c, g[c]);
    }
    forall d | d in t.loc
      ensures d.Tmp? && d.n < names && Defined(g', t.loc[d], d)
    {
      assert Defined(g, t.loc[d], d);
    }
  }

  lemma NamesNew(g: Cfg, t: Table, names: nat, d: set<Block>)
    requires NamesOk(g, t, names)
    ensures NamesOk(g + [OpenBlock([], None)], t.(dom := t.dom + [d]), names)
    ensures Grows(t, t.(dom := t.dom + [d]))
  {
    hide InstrNamed, DefinedBefore, IsValue;
    var g', t' := g + [OpenBlock([], None)], t.(dom := t.dom + [d]);
    forall c | 0 <= c < |g|
      ensures BlockNamed(t', c, g[c])
    {
      BlockStill(t, t', c, g[c]);
    }
    forall n | n in t'.loc
      ensures n.Tmp? && n.n < names && Defined(g', t'.loc[n], n)
    {
      assert Defined(g, t.loc[n], n);
    }
  }

  lemma NotStored(g: Cfg, t: Table, names: nat, x: nat, vars: nat)
    requires NamesOk(g, t, names) && Unused(t, {x}, vars)
    ensures Slot(x) !in t.stored
  {
    assert x in {x};
    hide BlockNamed;
  }

  lemma NamesFresh(g: Cfg, t: Table, names: nat)
    requires NamesOk(g, t, names)
    ensures NamesOk(g, t, names + 1) && Tmp(names) !in t.loc && Tmp(names) !in t.slots
  {
    hide BlockNamed;
  }

  // ----- Blocks that paths go through -----

  /** dom[b] has b, and with an edge from a to b whatever else it has is in dom[a]: so every path to b goes
      through all of it. */
  ghost predicate DomOk(g: Cfg, dom: seq<set<Block>>) {
    && |dom| == |g| > 0 && dom[ENTRY] == {ENTRY}
    && (forall b {:trigger dom[b]} :: 0 <= b < |dom| ==> b in dom[b])
    && forall a, s :: 0 <= a < |g| && s in TermTargets(g[a]) ==> MayJump(dom, a, s)
  }

  /** A branch from b to t is no way round the blocks of dom[t]. */
  ghost predicate MayJump(dom: seq<set<Block>>, b: Block, t: Block) {
    ENTRY < t < |dom| && b < |dom| && dom[t] - {t} <= dom[b]
  }

  lemma DomEmit(g: Cfg, dom: seq<set<Block>>, b: Block, ins: Instr)
    requires DomOk(g, dom) && b < |g|
    ensures DomOk(Emit(g, b, ins), dom)
  {
    hide MayJump;
    forall a, s | 0 <= a < |g| && s in TermTargets(Emit(g, b, ins)[a])
      ensures MayJump(dom, a, s)
    {
      assert s in TermTargets(g[a]);
    }
  }

  lemma DomTerminate(g: Cfg, dom: seq<set<Block>>, b: Block, t: Terminator)
    requires DomOk(g, dom) && b < |g| && forall s :: s in Targets(t) ==> MayJump(dom, b, s)
    ensures DomOk(Terminate(g, b, t), dom)
  {
    hide MayJump;
    forall a, s | 0 <= a < |g| && s in TermTargets(Terminate(g, b, t)[a])
      ensures MayJump(dom, a, s)
    {
      if a != b { assert s in TermTargets(g[a]); }
    }
  }

  lemma DomNew(g: Cfg, dom: seq<set<Block>>, c: Block)
    requires DomOk(g, dom) && c < |g|
    ensures DomOk(g + [OpenBlock([], None)], dom + [dom[c] + {|g|}])
  {
    var g', dom' := g + [OpenBlock([], None)], dom + [dom[c] + {|g|}];
    forall a, s | 0 <= a < |g'| && s in TermTargets(g'[a])
      ensures MayJump(dom', a, s)
    {
      assert a < |g| && s in TermTargets(g[a]) && MayJump(dom, a, s);
    }
  }

  // ----- What visitors do to the table -----

  /** Since the table was t0 with c0 as the block to insert into, it has grown; new variables are those in
      `decl`; and every path to c1 goes through what is known of c0. */
  ghost predicate Went(t0: Table, c0: Block, t1: Table, c1: Block, vars: nat, decl: set<nat>) {
    && Grows(t0, t1) && c0 < |t0.dom| && c1 < |t1.dom| && t0.dom[c0] <= t1.dom[c1]
    && forall d :: d in t1.loc && d !in t0.loc ==> d.Tmp? && (d.n >= vars || d.n in decl)
  }

  lemma WentThen(t0: Table, c0: Block, t1: Table, c1: Block, t2: Table, c2: Block, vars: nat, d1: set<nat>,
      d2: set<nat>)
    requires Went(t0, c0, t1, c1, vars, d1) && Went(t1, c1, t2, c2, vars, d2)
    ensures Went(t0, c0, t2, c2, vars, d1 + d2)
  {
    assert t2.dom[..|t0.dom|] == t2.dom[..|t1.dom|][..|t0.dom|];
  }

  lemma WentMore(t0: Table, c0: Block, t1: Table, c1: Block, vars: nat, d1: set<nat>, d2: set<nat>)
    requires Went(t0, c0, t1, c1, vars, d1) && d1 <= d2
    ensures Went(t0, c0, t1, c1, vars, d2)
  {
    hide Grows;
  }

  lemma WentNowhere(t: Table, c: Block, vars: nat)
    requires c < |t.dom|
    ensures Went(t, c, t, c, vars, {})
  {
  }

  ghost predicate UsableIn(t: Table, b: Block, o: Operand) {
    Known(t, b, o) && IsValue(t.slots, o)
  }

  /** The variables may be accessed in block b. */
  ghost predicate ScopeIn(t: Table, b: Block, sc: set<nat>) {
    forall x :: x in sc ==> SlotIn(t, b, x) && (t.strict ==> KnownStored(t, b, Slot(x)))
  }

  /** The variable may be stored to in block b, and is in scope then. */
  ghost predicate Storable(t: Table, b: Block, x: nat) {
    SlotIn(t, b, x) && (t.strict && Slot(x) in t.stored ==> KnownStored(t, b, Slot(x)))
  }

  ghost predicate SlotIn(t: Table, b: Block, x: nat) {
    Slot(x) in t.slots && Known(t, b, Ref(Slot(x)))
  }

  lemma KnownStill(t0: Table, c0: Block, t1: Table, c1: Block, vars: nat, decl: set<nat>, o: Operand)
    requires Went(t0, c0, t1, c1, vars, decl)
    ensures Known(t0, c0, o) ==> Known(t1, c1, o)
    ensures UsableIn(t0, c0, o) ==> UsableIn(t1, c1, o)
  {
  }

  lemma ScopeStill(t0: Table, c0: Block, t1: Table, c1: Block, vars: nat, decl: set<nat>, sc: set<nat>)
    requires Went(t0, c0, t1, c1, vars, decl) && ScopeIn(t0, c0, sc)
    ensures ScopeIn(t1, c1, sc)
  {
    forall x | x in sc
      ensures SlotIn(t1, c1, x) && (t1.strict ==> KnownStored(t1, c1, Slot(x)))
    {
      SlotStill(t0, c0, t1, c1, vars, decl, x);
    }
  }

  lemma SlotStill(t0: Table, c0: Block, t1: Table, c1: Block, vars: nat, decl: set<nat>, x: nat)
    requires Went(t0, c0, t1, c1, vars, decl) && SlotIn(t0, c0, x)
    ensures SlotIn(t1, c1, x) && (KnownStored(t0, c0, Slot(x)) ==> KnownStored(t1, c1, Slot(x)))
  {
    KnownStill(t0, c0, t1, c1, vars, decl, Ref(Slot(x)));
  }

  /** The declarations have not been visited yet. */
  ghost predicate Unused(t: Table, decl: set<nat>, vars: nat) {
    forall x :: x in decl ==> x < vars && Slot(x) !in t.loc
  }

  lemma UnusedStill(t0: Table, c0: Block, t1: Table, c1: Block, vars: nat, d1: set<nat>, d2: set<nat>)
    requires Went(t0, c0, t1, c1, vars, d1) && Unused(t0, d2, vars) && d1 !! d2
    ensures Unused(t1, d2, vars)
  {
    hide Grows;
  }

  // ----- Targets -----

  ghost predicate TargetsOk(s: seq<Block>, dom: seq<set<Block>>, b: Block) {
    forall t :: t in s ==> MayJump(dom, b, t)
  }

  ghost predicate JumpsOk(s: seq<Jumps>, dom: seq<set<Block>>, b: Block) {
    forall j :: j in s ==> MayJump(dom, b, j.testBB) && MayJump(dom, b, j.afterBB)
  }

  lemma JumpStill(t0: Table, c0: Block, t1: Table, c1: Block, vars: nat, decl: set<nat>, t: Block)
    requires Went(t0, c0, t1, c1, vars, decl) && MayJump(t0.dom, c0, t)
    ensures MayJump(t1.dom, c1, t)
  {
    GrowsDom(t0, t1, t);
  }

  lemma TargetsStill(t0: Table, c0: Block, t1: Table, c1: Block, vars: nat, decl: set<nat>, s: seq<Block>)
    requires Went(t0, c0, t1, c1, vars, decl) && TargetsOk(s, t0.dom, c0)
    ensures TargetsOk(s, t1.dom, c1)
  {
    forall t | t in s
      ensures MayJump(t1.dom, c1, t)
    {
      JumpStill(t0, c0, t1, c1, vars, decl, t);
    }
  }

  lemma JumpsStill(t0: Table, c0: Block, t1: Table, c1: Block, vars: nat, decl: set<nat>, s: seq<Jumps>)
    requires Went(t0, c0, t1, c1, vars, decl) && JumpsOk(s, t0.dom, c0)
    ensures JumpsOk(s, t1.dom, c1)
  {
    forall j | j in s
      ensures MayJump(t1.dom, c1, j.testBB) && MayJump(t1.dom, c1, j.afterBB)
    {
      JumpStill(t0, c0, t1, c1, vars, decl, j.testBB);
      JumpStill(t0, c0, t1, c1, vars, decl, j.afterBB);
    }
  }

  lemma LastTarget(s: seq<Block>, dom: seq<set<Block>>, b: Block)
    requires TargetsOk(s, dom, b) && s != []
    ensures MayJump(dom, b, s[|s| - 1])
  {
    assert s[|s| - 1] in s;
  }

  lemma LastJumps(s: seq<Jumps>, dom: seq<set<Block>>, b: Block)
    requires JumpsOk(s, dom, b) && s != []
    ensures var j := s[|s| - 1]; MayJump(dom, b, j.testBB) && MayJump(dom, b, j.afterBB)
  {
    assert s[|s| - 1] in s;
  }

  lemma MoreTarget(s: seq<Block>, dom: seq<set<Block>>, b: Block, t: Block)
    requires TargetsOk(s, dom, b) && MayJump(dom, b, t)
    ensures TargetsOk(s + [t], dom, b)
  {
  }

  lemma MoreJumps(s: seq<Jumps>, dom: seq<set<Block>>, b: Block, j: Jumps)
    requires JumpsOk(s, dom, b) && MayJump(dom, b, j.testBB) && MayJump(dom, b, j.afterBB)
    ensures JumpsOk(s + [j], dom, b)
  {
  }

  lemma FewerTargets(s: seq<Block>, rest: seq<Block>, t: Block, dom: seq<set<Block>>, b: Block)
    requires TargetsOk(s, dom, b) && s == rest + [t]
    ensures TargetsOk(rest, dom, b)
  {
    forall x | x in rest
      ensures MayJump(dom, b, x)
    {
      assert x in s;
    }
  }

  lemma FewerJumps(s: seq<Jumps>, rest: seq<Jumps>, j: Jumps, dom: seq<set<Block>>, b: Block)
    requires JumpsOk(s, dom, b) && s == rest + [j]
    ensures JumpsOk(rest, dom, b)
  {
    forall x | x in rest
      ensures MayJump(dom, b, x.testBB) && MayJump(dom, b, x.afterBB)
    {
      assert x in s;
    }
  }

  // ----- The visitors -----

  class SysYBuilder {
    const vars: nat                  // how many variables the function has
    ghost const strict: bool         // all of them are given a value where they are declared
    ghost const arrays: set<nat>     // those of array parameters
    var blocks: Cfg
    var succs: seq<seq<Block>>
    var preds: seq<seq<Block>>
    var insertBB: Block
    var trueStack: seq<Block>
    var falseStack: seq<Block>
    var loopStack: seq<Jumps>
    var names: nat
    ghost var table: Table

    /** Graph, lists and table agree. */
    ghost predicate InOrder()
      reads `blocks, `succs, `preds, `names, `table
    {
      && ListsOk(blocks, succs, preds) && NamesOk(blocks, table, names) && DomOk(blocks, table.dom) && vars <= names
      && table.strict == strict && table.arrays == arrays
    }

    /** The state is in order, with b as the block to insert into. */
    ghost predicate ValidAt(b: Block)
      reads this
    {
      && InOrder() && b < |blocks|
      && TargetsOk(trueStack, table.dom, b) && TargetsOk(falseStack, table.dom, b) && JumpsOk(loopStack, table.dom, b)
    }

    ghost predicate Valid()
      reads this
    {
      ValidAt(insertBB)
    }

    /** Instructions may be added at the insertion point. */
    ghost predicate Open()
      reads this
    {
      Valid() && blocks[insertBB].term.None?
    }

    /** The operand may be used where instructions are added. */
    ghost predicate Usable(o: Operand)
      reads this
    {
      UsableIn(table, insertBB, o)
    }

    ghost function Here(): Point
      reads this
      requires insertBB < |blocks|
    {
      At(insertBB, |blocks[insertBB].body|)
    }

    ghost function Innermost(): Option<Jumps>
      reads this
    {
      if loopStack == [] then None else Some(loopStack[|loopStack| - 1])
    }

    predicate IsTerminated()
      reads this
      requires insertBB < |blocks|
    {
      blocks[insertBB].term.Some?
    }

    constructor (vars: nat, ghost strict: bool, ghost arrays: set<nat>)
      ensures Open() && blocks == [OpenBlock([], None)] && insertBB == ENTRY && this.vars == vars
      ensures trueStack == [] && falseStack == [] && loopStack == [] && table.loc == map[]
      ensures this.strict == strict && this.arrays == arrays
    {
      this.vars, this.strict, this.arrays := vars, strict, arrays;
      blocks, succs, preds := [OpenBlock([], None)], [[]], [[]];
      insertBB, names, table := ENTRY, vars, Table(map[], {}, [{ENTRY}], map[], strict, arrays);
      trueStack, falseStack, loopStack := [], [], [];
    }

    /** Another block to go on in, one that is reached through what was known of c0. */
    lemma ValidMoves(t0: Table, c0: Block, b: Block, decl: set<nat>)
      requires InOrder() && b < |blocks| && Went(t0, c0, table, b, vars, decl)
      requires TargetsOk(trueStack, t0.dom, c0) && TargetsOk(falseStack, t0.dom, c0) && JumpsOk(loopStack, t0.dom, c0)
      ensures ValidAt(b)
    {
      hide InOrder, Went, TargetsOk, JumpsOk;
      TargetsStill(t0, c0, table, b, vars, decl, trueStack);
      TargetsStill(t0, c0, table, b, vars, decl, falseStack);
      JumpsStill(t0, c0, table, b, vars, decl, loopStack);
    }

    lemma TableSame(b: Block)
      requires InOrder() && b < |blocks|
      ensures Went(table, b, table, b, vars, {})
    {
      TableStays(blocks, table, b, vars);
      hide Went;
    }

    // Emission. No instruction is ever added to a terminated block.

    method CreateBlock() returns (b: Block)
      requires Valid()
      modifies this`blocks, this`succs, this`preds, this`table
      ensures Valid() && b == |old(blocks)| && blocks == old(blocks) + [OpenBlock([], None)]
      ensures Grown(old(blocks), insertBB, blocks, {insertBB, b})
      ensures Went(old(table), insertBB, table, insertBB, vars, {}) && MayJump(table.dom, insertBB, b)
      ensures b < |table.dom| == |blocks| && table.dom[b] == table.dom[insertBB] + {b}
    {
      hide ListsOk, NamesOk, Grown, TargetsOk, JumpsOk, MayJump;
      ghost var t0, d := table, table.dom[insertBB] + {|blocks|};
      NewLists(blocks, succs, preds);
      NamesNew(blocks, table, names, d);
      DomNew(blocks, table.dom, insertBB);
      GrownRefl(blocks, insertBB);
      GrownNew(blocks, insertBB, blocks, {insertBB});
      b := |blocks|;
      assert {insertBB} + {b} == {insertBB, b};
      blocks, succs, preds := blocks + [OpenBlock([], None)], succs + [[]], preds + [[]];
      table := table.(dom := table.dom + [d]);
      NewBlockKnown(t0, insertBB, b, table, vars);
      TargetsStill(t0, insertBB, table, insertBB, vars, {}, trueStack);
      TargetsStill(t0, insertBB, table, insertBB, vars, {}, falseStack);
      JumpsStill(t0, insertBB, table, insertBB, vars, {}, loopStack);
    }

    /** A result that no instruction has yet. */
    method Fresh() returns (d: Name)
      requires Valid()
      modifies this`names
      ensures Valid() && d.Tmp? && vars <= d.n < names && d !in table.loc && d !in table.slots
    {
      hide ListsOk, DomOk, TargetsOk, JumpsOk, NamesOk;
      NamesFresh(blocks, table, names);
      d := Tmp(names);
      names := names + 1;
    }

    method AddInstruction(ins: Instr)
      requires Open() && Addable(table, insertBB, names, ins) && (!ins.Store? && !ins.Alloca? ==> ins.dst.n >= vars)
      modifies this`blocks, this`table
      ensures Open() && Grown(old(blocks), insertBB, blocks, {insertBB}) && |blocks| == |old(blocks)|
      ensures Has(blocks, old(Here()), ins) && Here() == After(old(Here()))
      ensures Went(old(table), insertBB, table, insertBB, vars, if ins.Alloca? then {ins.dst.n} else {})
      ensures !ins.Store? && !ins.Alloca? ==> Usable(Ref(ins.dst))
      ensures ins.Alloca? ==> ins.dst in table.slots && Known(table, insertBB, Ref(ins.dst))
      ensures if ins.Store? then ins.ptr.Ref? && ins.ptr.name !in old(table).stored ==>
                KnownStored(table, insertBB, ins.ptr.name)
              else table.stored == old(table).stored
    {
      hide ListsOk, NamesOk, Grown, TargetsOk, JumpsOk, DomOk, AccessOk;
      ghost var t0, i := table, |blocks[insertBB].body|;
      NamesEmit(blocks, table, names, insertBB, ins);
      EmitLists(blocks, succs, preds, insertBB, ins);
      DomEmit(blocks, table.dom, insertBB, ins);
      DomSelf(blocks, table.dom, insertBB);
      GrownRefl(blocks, insertBB);
      GrownEmit(blocks, insertBB, blocks, {insertBB}, insertBB, ins);
      AddWent(t0, names, ins, insertBB, i, vars);
      table := Add(table, ins, insertBB, i);
      blocks := Emit(blocks, insertBB, ins);
    }

    method CreateBr(t: Block)
      requires Open() && MayJump(table.dom, insertBB, t)
      modifies this`blocks, this`succs, this`preds
      ensures Valid() && Grown(old(blocks), insertBB, blocks, {}) && |blocks| == |old(blocks)|
      ensures Ends(blocks, old(Here()), Br(t))
    {
      hide ListsOk, NamesOk, Grown, Terminate, Ends, TargetsOk, JumpsOk, DomOk;
      ListSizes(blocks, succs, preds);
      DomSelf(blocks, table.dom, insertBB);
      TerminateSize(blocks, insertBB, Br(t));
      BranchLists(blocks, succs, preds, insertBB, t);
      NamesTerminate(blocks, table, names, insertBB, Br(t));
      DomTerminate(blocks, table.dom, insertBB, Br(t));
      GrownEnd(blocks, insertBB, Br(t));
      blocks := Terminate(blocks, insertBB, Br(t));
      preds := preds[t := preds[t] + [insertBB]];
      succs := succs[insertBB := succs[insertBB] + [t]];
    }

    method CreateCondBr(c: Operand, t: Block, f: Block)
      requires Open() && MayJump(table.dom, insertBB, t) && MayJump(table.dom, insertBB, f) && Usable(c)
      modifies this`blocks, this`succs, this`preds
      ensures Valid() && Grown(old(blocks), insertBB, blocks, {}) && |blocks| == |old(blocks)|
      ensures Ends(blocks, old(Here()), CondBr(c, t, f))
    {
      hide ListsOk, NamesOk, Grown, Terminate, Ends, TargetsOk, JumpsOk, DomOk;
      ListSizes(blocks, succs, preds);
      DomSelf(blocks, table.dom, insertBB);
      TerminateSize(blocks, insertBB, CondBr(c, t, f));
      NamesTerminate(blocks, table, names, insertBB, CondBr(c, t, f));
      DomTerminate(blocks, table.dom, insertBB, CondBr(c, t, f));
      CondLists(blocks, succs, preds, insertBB, c, t, f);
      GrownEnd(blocks, insertBB, CondBr(c, t, f));
      blocks := Terminate(blocks, insertBB, CondBr(c, t, f));
      preds := preds[t := preds[t] + [insertBB]];
      preds := preds[f := preds[f] + [insertBB]];
      succs := succs[insertBB := succs[insertBB] + [t] + [f]];
    }

    method CreateReturn(t: Terminator)
      requires Open() && (t.RetVoid? || (t.Ret? && Usable(t.val)))
      modifies this`blocks
      ensures Valid() && Grown(old(blocks), insertBB, blocks, {}) && |blocks| == |old(blocks)|
      ensures Ends(blocks, old(Here()), t)
    {
      hide ListsOk, NamesOk, Grown, Terminate, Ends, TargetsOk, JumpsOk, DomOk;
      TerminateSize(blocks, insertBB, t);
      NamesTerminate(blocks, table, names, insertBB, t);
      DomTerminate(blocks, table.dom, insertBB, t);
      ReturnLists(blocks, succs, preds, insertBB, t);
      GrownEnd(blocks, insertBB, t);
      blocks := Terminate(blocks, insertBB, t);
    }

    // Expressions.

    /** Operands and arguments first, from left to right, then the operation. */
    method VisitExp(e: Exp, ghost sc: set<nat>) returns (v: Operand)
      requires Open() && ScopeIn(table, insertBB, sc) && InScope(e, sc)
      modifies this`blocks, this`names, this`table
      ensures Open() && Grown(old(blocks), insertBB, blocks, {insertBB}) && |blocks| == |old(blocks)|
      ensures ExpAt(blocks, e, old(Here()), v, Here()) && Usable(v)
      ensures Went(old(table), insertBB, table, insertBB, vars, {}) && table.stored == old(table).stored
      decreases e
    {
      hide InOrder, Grown, TargetsOk, JumpsOk, Went, Has, ScopeIn, Lowering.Extends;
      match e
      case Num(n) =>
        GrownRefl(blocks, insertBB);
        TableSame(insertBB);
        v := Imm(n);
      case Decimal(x) =>
        GrownRefl(blocks, insertBB);
        TableSame(insertBB);
        v := FloatImm(x);
      case Var(x) =>
        VarKnown(table, insertBB, sc, x);
        var d := Fresh();
        LoadAddable(table, insertBB, names, d, x);
        AddInstruction(Load(d, Ref(Slot(x))));
        v := Ref(d);
      case Unary(_, _) => v := VisitUnary(e, sc);
      case Binary(_, _, _) => v := VisitBinary(e, sc);
      case Invoke(_, _) => v := VisitInvoke(e, sc);
    }

    method VisitUnary(e: Exp, ghost sc: set<nat>) returns (v: Operand)
      requires Open() && ScopeIn(table, insertBB, sc) && e.Unary? && InScope(e, sc)
      modifies this`blocks, this`names, this`table
      ensures Open() && Grown(old(blocks), insertBB, blocks, {insertBB}) && |blocks| == |old(blocks)|
      ensures ExpAt(blocks, e, old(Here()), v, Here()) && Usable(v)
      ensures Went(old(table), insertBB, table, insertBB, vars, {}) && table.stored == old(table).stored
      decreases e, 0
    {
      hide InOrder, Grown, TargetsOk, JumpsOk, Went, Has, ScopeIn, Lowering.Extends, ExpAt, UsableIn;
      ghost var g0, t0, c, p := blocks, table, insertBB, Here();
      var a := VisitExp(e.arg, sc);
      ghost var g1, t1, q := blocks, table, Here();
      var d := Fresh();
      OpAddable(table, c, names, d, e.code, [a]);
      AddInstruction(Op(d, e.code, [a]));
      v := Ref(d);
      WentAfter(t0, c, t1, c, table, c, vars, {});
      UnaryVisited(g0, c, g1, blocks, e, p, a, q, d);
    }

    method VisitBinary(e: Exp, ghost sc: set<nat>) returns (v: Operand)
      requires Open() && ScopeIn(table, insertBB, sc) && e.Binary? && InScope(e, sc)
      modifies this`blocks, this`names, this`table
      ensures Open() && Grown(old(blocks), insertBB, blocks, {insertBB}) && |blocks| == |old(blocks)|
      ensures ExpAt(blocks, e, old(Here()), v, Here()) && Usable(v)
      ensures Went(old(table), insertBB, table, insertBB, vars, {}) && table.stored == old(table).stored
      decreases e, 0
    {
      hide InOrder, Grown, TargetsOk, JumpsOk, Went, Has, ScopeIn, Lowering.Extends, ExpAt, UsableIn;
      ghost var g0, t0, c, p := blocks, table, insertBB, Here();
      var a := VisitExp(e.left, sc);
      ghost var g1, t1, q := blocks, table, Here();
      ScopeStill(t0, c, t1, c, vars, {}, sc);
      var b := VisitExp(e.right, sc);
      ghost var g2, t2, q' := blocks, table, Here();
      KnownStill(t1, c, t2, c, vars, {}, a);
      var d := Fresh();
      OpAddable(table, c, names, d, e.code, [a, b]);
      AddInstruction(Op(d, e.code, [a, b]));
      v := Ref(d);
      WentAfter(t0, c, t1, c, t2, c, vars, {});
      WentAfter(t0, c, t2, c, table, c, vars, {});
      BinaryVisited(g0, c, g1, g2, blocks, e, p, a, q, b, q', d);
    }

    method VisitInvoke(e: Exp, ghost sc: set<nat>) returns (v: Operand)
      requires Open() && ScopeIn(table, insertBB, sc) && e.Invoke? && InScope(e, sc)
      modifies this`blocks, this`names, this`table
      ensures Open() && Grown(old(blocks), insertBB, blocks, {insertBB}) && |blocks| == |old(blocks)|
      ensures ExpAt(blocks, e, old(Here()), v, Here()) && Usable(v)
      ensures Went(old(table), insertBB, table, insertBB, vars, {}) && table.stored == old(table).stored
      decreases e, 0
    {
      hide InOrder, Grown, TargetsOk, JumpsOk, Went, Has, ScopeIn, Lowering.Extends, ExpsAt, UsableIn;
      ghost var g0, t0, c, p := blocks, table, insertBB, Here();
      var vals := VisitExps(e.args, sc);
      ghost var g1, t1, q := blocks, table, Here();
      var d := Fresh();
      CallAddable(table, c, names, d, e.f, vals);
      AddInstruction(Call(d, e.f, vals));
      v := Ref(d);
      WentAfter(t0, c, t1, c, table, c, vars, {});
      GrownMore(g0, c, g1, c, blocks, {c});
      GrownExtends(g1, c, blocks, {c});
      ExpsExtend(g1, blocks, e.args, p, vals, q);
    }

    method VisitExps(es: Exps, ghost sc: set<nat>) returns (vals: seq<Operand>)
      requires Open() && ScopeIn(table, insertBB, sc) && AllInScope(es, sc)
      modifies this`blocks, this`names, this`table
      ensures Open() && Grown(old(blocks), insertBB, blocks, {insertBB}) && |blocks| == |old(blocks)|
      ensures ExpsAt(blocks, es, old(Here()), vals, Here()) && forall v :: v in vals ==> Usable(v)
      ensures Went(old(table), insertBB, table, insertBB, vars, {}) && table.stored == old(table).stored
      decreases es
    {
      hide InOrder, Grown, TargetsOk, JumpsOk, Went, Has, ScopeIn, Lowering.Extends, ExpAt, UsableIn;
      ghost var g0, t0, c, p := blocks, table, insertBB, Here();
      vals := [];
      match es
      case NoExps =>
        GrownRefl(blocks, c);
        TableSame(c);
      case Exps(e, rest) =>
        var v := VisitExp(e, sc);
        ghost var g1, t1, q := blocks, table, Here();
        ScopeStill(t0, c, t1, c, vars, {}, sc);
        var more := VisitExps(rest, sc);
        vals := [v] + more;
        KnownStill(t1, c, table, c, vars, {}, v);
        WentAfter(t0, c, t1, c, table, c, vars, {});
        GrownMore(g0, c, g1, c, blocks, {c});
        GrownExtends(g1, c, blocks, {c});
        ExpExtends(g1, blocks, e, p, v, q);
        assert vals[0] == v && vals[1..] == more;
    }

    // Conditions.

    method VisitLeaf(e: Leaf, ghost sc: set<nat>) returns (v: Operand)
      requires Open() && ScopeIn(table, insertBB, sc) && LeafInScope(e, sc)
      modifies this`blocks, this`names, this`table
      ensures Open() && Grown(old(blocks), insertBB, blocks, {insertBB}) && |blocks| == |old(blocks)|
      ensures LeafAt(blocks, e, old(Here()), v, Here()) && Usable(v)
      ensures Went(old(table), insertBB, table, insertBB, vars, {})
    {
      hide InOrder, Grown, TargetsOk, JumpsOk, Went, ScopeIn, ExpAt;
      match e
      case Folded(b) =>
        GrownRefl(blocks, insertBB);
        TableSame(insertBB);
        v := BitImm(b);
      case Dynamic(exp, _) =>
        v := VisitExp(exp, sc);
    }

    /** `create_zext` on a value of type i1. */
    method Extend(ty: Type, v: Operand) returns (w: Operand)
      requires Open() && Usable(v)
      modifies this`blocks, this`names, this`table
      ensures Open() && Grown(old(blocks), insertBB, blocks, {insertBB}) && |blocks| == |old(blocks)|
      ensures ExtendedAt(blocks, ty, v, old(Here()), w, Here()) && Usable(w)
      ensures Went(old(table), insertBB, table, insertBB, vars, {})
    {
      hide InOrder, Grown, TargetsOk, JumpsOk, Went, Has, UsableIn;
      w := v;
      if ty.I1? {
        var d := Fresh();
        OpAddable(table, insertBB, names, d, ZEXT, [v]);
        AddInstruction(Op(d, ZEXT, [v]));
        w := Ref(d);
      } else {
        GrownRefl(blocks, insertBB);
        TableSame(insertBB);
      }
    }

    /** Comparison with zero. */
    method Compare(ty: Type, v: Operand) returns (test: Name)
      requires Open() && Usable(v)
      modifies this`blocks, this`names, this`table
      ensures Open() && Grown(old(blocks), insertBB, blocks, {insertBB}) && |blocks| == |old(blocks)|
      ensures Has(blocks, old(Here()), Op(test, NotEqual(ty), [v, Zero(ty)])) && Here() == After(old(Here()))
      ensures Went(old(table), insertBB, table, insertBB, vars, {}) && Usable(Ref(test))
    {
      hide InOrder, Grown, TargetsOk, JumpsOk, Went, Has, UsableIn;
      test := Fresh();
      PlainUsable(table, insertBB, Zero(ty));
      OpAddable(table, insertBB, names, test, NotEqual(ty), [v, Zero(ty)]);
      AddInstruction(Op(test, NotEqual(ty), [v, Zero(ty)]));
    }

    /** Comparison with zero, an extension of no use, and the branch. */
    method TestAndBranch(ty: Type, v: Operand, t: Block, f: Block) returns (test: Name, zext: Name)
      requires Open() && MayJump(table.dom, insertBB, t) && MayJump(table.dom, insertBB, f) && Usable(v)
      requires !ty.I1?
      modifies this`blocks, this`names, this`table, this`succs, this`preds
      ensures Valid() && Grown(old(blocks), insertBB, blocks, {}) && |blocks| == |old(blocks)|
      ensures TestAt(blocks, ty, v, test, zext, t, f, old(Here()))
      ensures Went(old(table), insertBB, table, insertBB, vars, {})
    {
      hide InOrder, Grown, TargetsOk, JumpsOk, Went, Has, Ends, UsableIn, MayJump, Lowering.Extends;
      ghost var g0, t0, c, p := blocks, table, insertBB, Here();
      test := Compare(ty, v);
      ghost var g1, t1 := blocks, table;
      zext := Fresh();
      OpAddable(table, insertBB, names, zext, ZEXT, [Ref(test)]);
      AddInstruction(Op(zext, ZEXT, [Ref(test)]));
      ghost var g2 := blocks;
      KnownStill(t1, c, table, c, vars, {}, Ref(test));
      WentAfter(t0, c, t1, c, table, c, vars, {});
      JumpStill(t0, c, table, c, vars, {}, t);
      JumpStill(t0, c, table, c, vars, {}, f);
      CreateCondBr(Ref(test), t, f);
      TestBuilt(g0, c, g1, g2, blocks, ty, v, test, zext, t, f, p);
    }

    /** The left operand decides whether control goes on to the right one or to the false target. */
    method VisitLAnd(a: LAnd, ghost sc: set<nat>) returns (ok: bool, v: Operand, ghost c: AndCode)
      requires Open() && falseStack != [] && ScopeIn(table, insertBB, sc) && LAndInScope(a, sc)
      modifies this`blocks, this`names, this`table, this`succs, this`preds, this`insertBB
      ensures ok <==> LAndTyped(a)
      ensures ok ==> Open() && Grown(old(blocks), old(insertBB), blocks, {insertBB})
      ensures ok ==> AndAt(blocks, a, c, old(Here()), falseStack[|falseStack| - 1]) && c.val == v && c.end == Here()
      ensures ok ==> Usable(v) && Went(old(table), old(insertBB), table, insertBB, vars, {})
      ensures ok ==> AndPlaced(c, |old(blocks)|) && |blocks| == |old(blocks)| + AndSize(c)
      decreases a, 1
    {
      hide *;
      if a.LAndOne? {
        ok, v, c := VisitSingleEq(a, sc);
      } else {
        ok, v, c := VisitAnd(a, sc);
      }
    }

    method VisitSingleEq(a: LAnd, ghost sc: set<nat>) returns (ok: bool, v: Operand, ghost c: AndCode)
      requires Open() && falseStack != [] && ScopeIn(table, insertBB, sc) && LAndInScope(a, sc) && a.LAndOne?
      modifies this`blocks, this`names, this`table, this`succs, this`preds, this`insertBB
      ensures ok <==> LAndTyped(a)
      ensures ok ==> Open() && Grown(old(blocks), old(insertBB), blocks, {insertBB})
      ensures ok ==> AndAt(blocks, a, c, old(Here()), falseStack[|falseStack| - 1]) && c.val == v && c.end == Here()
      ensures ok ==> Usable(v) && Went(old(table), old(insertBB), table, insertBB, vars, {})
      ensures ok ==> AndPlaced(c, |old(blocks)|) && |blocks| == |old(blocks)| + AndSize(c)
    {
      hide InOrder, Grown, TargetsOk, JumpsOk, Went, ScopeIn, LeafAt, ExtendedAt, UsableIn, Lowering.Extends;
      ghost var g0, t0, c0, p := blocks, table, insertBB, Here();
      v := VisitLeaf(a.exp, sc);
      ghost var g1, t1, lv, le := blocks, table, v, Here();
      v := Extend(LeafType(a.exp), v);
      ok, c := true, AndOne(lv, le, v, Here());
      WentAfter(t0, c0, t1, c0, table, c0, vars, {});
      GrownMore(g0, c0, g1, c0, blocks, {insertBB});
      GrownExtends(g1, c0, blocks, {insertBB});
      LeafExtends(g1, blocks, a.exp, p, lv, le);
    }

    method VisitAnd(a: LAnd, ghost sc: set<nat>) returns (ok: bool, v: Operand, ghost c: AndCode)
      requires Open() && falseStack != [] && ScopeIn(table, insertBB, sc) && LAndInScope(a, sc) && a.LAndMore?
      modifies this`blocks, this`names, this`table, this`succs, this`preds, this`insertBB
      ensures ok <==> LAndTyped(a)
      ensures ok ==> Open() && Grown(old(blocks), old(insertBB), blocks, {insertBB})
      ensures ok ==> AndAt(blocks, a, c, old(Here()), falseStack[|falseStack| - 1]) && c.val == v && c.end == Here()
      ensures ok ==> Usable(v) && Went(old(table), old(insertBB), table, insertBB, vars, {})
      ensures ok ==> AndPlaced(c, |old(blocks)|) && |blocks| == |old(blocks)| + AndSize(c)
      decreases a, 0
    {
      hide InOrder, Grown, Has, Ends, LeafAt, ExtendedAt, TestAt, Lowering.Extends, TargetsOk, JumpsOk, Went, ScopeIn,
           UsableIn, MayJump;
      ghost var g0, t0, c0, p := blocks, table, insertBB, Here();
      c := AndOne(Imm(0), p, Imm(0), p);
      var f := falseStack[|falseStack| - 1];
      LastTarget(falseStack, table.dom, insertBB);
      var trueBB := CreateBlock();
      ghost var g1, t1 := blocks, table;
      ScopeStill(t0, c0, t1, c0, vars, {}, sc);
      JumpStill(t0, c0, t1, c0, vars, {}, f);
      ghost var left;
      ok, v, left := VisitLAnd(a.left, sc);
      if !ok || LAndType(a.left).I1? {
        ok := false;
        return;
      }
      ghost var g2, t2, c2, v2 := blocks, table, insertBB, v;
      JumpStill(t1, c0, t2, c2, vars, {}, f);
      JumpStill(t1, c0, t2, c2, vars, {}, trueBB);
      GrownExtends(g1, c0, g2, {c2});
      var test, zext := TestAndBranch(LAndType(a.left), v, trueBB, f);
      ghost var g3, t3 := blocks, table;
      NewBlockStays(g0, c0, g1, g2, c2, g3, trueBB);
      WentAround(t0, c0, t1, t2, c2, t3, trueBB, vars);
      ValidMoves(t0, c0, trueBB, {});
      insertBB := trueBB;
      ScopeStill(t0, c0, t3, trueBB, vars, {}, sc);
      v := VisitLeaf(a.exp, sc);
      c := AndMore(left, test, zext, trueBB, v, Here());
      WentAfter(t0, c0, t3, trueBB, table, trueBB, vars, {});
      AndVisited(g0, c0, p, g1, g2, c2, g3, blocks, trueBB, a.left, left, LAndType(a.left), v2, test, zext, f);
    }

    method VisitSingleLAnd(o: LOr, ghost sc: set<nat>) returns (ok: bool, v: Operand, ghost c: OrCode)
      requires Open() && trueStack != [] && falseStack != [] && o.LOrOne?
      requires ScopeIn(table, insertBB, sc) && LOrInScope(o, sc)
      modifies this`blocks, this`names, this`table, this`succs, this`preds, this`insertBB
      ensures ok <==> LOrTyped(o)
      ensures ok ==> Open() && Grown(old(blocks), old(insertBB), blocks, {insertBB})
      ensures ok ==> OrAt(blocks, o, c, old(Here()), trueStack[|trueStack| - 1], falseStack[|falseStack| - 1])
      ensures ok ==> c.val == v && c.end == Here() && Usable(v)
      ensures ok ==> Went(old(table), old(insertBB), table, insertBB, vars, {})
      ensures ok ==> OrPlaced(c, |old(blocks)|) && |blocks| == |old(blocks)| + OrSize(c)
    {
      hide InOrder, Grown, Has, Ends, ExtendedAt, AndAt, Lowering.Extends, TargetsOk, JumpsOk, Went, ScopeIn, UsableIn;
      ghost var g0, t0, c0, p := blocks, table, insertBB, Here();
      c := OrOne(AndOne(Imm(0), p, Imm(0), p), Imm(0), p);
      ghost var land;
      ok, v, land := VisitLAnd(o.land, sc);
      if ok {
        ghost var g1, t1, c1 := blocks, table, insertBB;
        v := Extend(LAndType(o.land), v);
        c := OrOne(land, v, Here());
        WentAfter(t0, c0, t1, c1, table, c1, vars, {});
        GrownMore(g0, c0, g1, c1, blocks, {insertBB});
        GrownExtends(g1, c1, blocks, {insertBB});
        AndExtends(g1, blocks, o.land, land, p, falseStack[|falseStack| - 1]);
      }
    }

    method VisitLOr(o: LOr, ghost sc: set<nat>) returns (ok: bool, v: Operand, ghost c: OrCode)
      requires Open() && trueStack != [] && falseStack != []
      requires ScopeIn(table, insertBB, sc) && LOrInScope(o, sc)
      modifies this`blocks, this`names, this`table, this`succs, this`preds, this`insertBB, this`falseStack
      ensures ok <==> LOrTyped(o)
      ensures ok ==> Open() && falseStack == old(falseStack) && Grown(old(blocks), old(insertBB), blocks, {insertBB})
      ensures ok ==> OrAt(blocks, o, c, old(Here()), trueStack[|trueStack| - 1], falseStack[|falseStack| - 1])
      ensures ok ==> c.val == v && c.end == Here() && Usable(v)
      ensures ok ==> Went(old(table), old(insertBB), table, insertBB, vars, {})
      ensures ok ==> OrPlaced(c, |old(blocks)|) && |blocks| == |old(blocks)| + OrSize(c)
      decreases o, 1
    {
      hide *;
      if o.LOrOne? {
        ok, v, c := VisitSingleLAnd(o, sc);
      } else {
        ok, v, c := VisitOr(o, sc);
      }
    }

    /** The left operand, with its false target on the stack. */
    method VisitLeft(o: LOr, falseBB: Block, ghost sc: set<nat>) returns (ok: bool, v: Operand, ghost c: OrCode)
      requires Open() && trueStack != [] && MayJump(table.dom, insertBB, falseBB)
      requires ScopeIn(table, insertBB, sc) && LOrInScope(o, sc)
      modifies this`blocks, this`names, this`table, this`succs, this`preds, this`insertBB, this`falseStack
      ensures ok <==> LOrTyped(o)
      ensures ok ==> Open() && falseStack == old(falseStack) && Grown(old(blocks), old(insertBB), blocks, {insertBB})
      ensures ok ==> OrAt(blocks, o, c, old(Here()), trueStack[|trueStack| - 1], falseBB)
      ensures ok ==> c.val == v && c.end == Here() && Usable(v)
      ensures ok ==> Went(old(table), old(insertBB), table, insertBB, vars, {})
      ensures ok ==> OrPlaced(c, |old(blocks)|) && |blocks| == |old(blocks)| + OrSize(c)
      decreases o, 2
    {
      hide InOrder, Grown, OrAt, OrPlaced, OrSize, TargetsOk, JumpsOk, Went, ScopeIn, UsableIn, MayJump;
      var outer := falseStack;
      MoreTarget(falseStack, table.dom, insertBB, falseBB);
      falseStack := falseStack + [falseBB];
      ok, v, c := VisitLOr(o, sc);
      if ok {
        assert falseStack[..|falseStack| - 1] == outer;
        FewerTargets(falseStack, outer, falseBB, table.dom, insertBB);
        falseStack := falseStack[..|falseStack| - 1];
      }
    }

    /** The left operand decides whether control goes on to the true target or to the right one. */
    method VisitOr(o: LOr, ghost sc: set<nat>) returns (ok: bool, v: Operand, ghost c: OrCode)
      requires Open() && trueStack != [] && falseStack != [] && o.LOrMore?
      requires ScopeIn(table, insertBB, sc) && LOrInScope(o, sc)
      modifies this`blocks, this`names, this`table, this`succs, this`preds, this`insertBB, this`falseStack
      ensures ok <==> LOrTyped(o)
      ensures ok ==> Open() && falseStack == old(falseStack) && Grown(old(blocks), old(insertBB), blocks, {insertBB})
      ensures ok ==> OrAt(blocks, o, c, old(Here()), trueStack[|trueStack| - 1], falseStack[|falseStack| - 1])
      ensures ok ==> c.val == v && c.end == Here() && Usable(v)
      ensures ok ==> Went(old(table), old(insertBB), table, insertBB, vars, {})
      ensures ok ==> OrPlaced(c, |old(blocks)|) && |blocks| == |old(blocks)| + OrSize(c)
      decreases o, 0
    {
      hide InOrder, Grown, Has, Ends, ExtendedAt, TestAt, AndAt, Lowering.Extends, OrPlaced, AndPlaced, OrSize,
           AndSize, TargetsOk, JumpsOk, Went, ScopeIn, UsableIn, MayJump;
      ghost var g0, t0, c0, p := blocks, table, insertBB, Here();
      c := OrOne(AndOne(Imm(0), p, Imm(0), p), Imm(0), p);
      var t := trueStack[|trueStack| - 1];
      LastTarget(trueStack, table.dom, insertBB);
      var falseBB := CreateBlock();
      ghost var g1, t1 := blocks, table;
      ScopeStill(t0, c0, t1, c0, vars, {}, sc);
      JumpStill(t0, c0, t1, c0, vars, {}, t);
      ghost var left;
      ok, v, left := VisitLeft(o.left, falseBB, sc);
      if !ok || LOrType(o.left).I1? {
        ok := false;
        return;
      }
      ghost var g2, t2, c2, v2 := blocks, table, insertBB, v;
      JumpStill(t1, c0, t2, c2, vars, {}, t);
      JumpStill(t1, c0, t2, c2, vars, {}, falseBB);
      GrownExtends(g1, c0, g2, {c2});
      var test, zext := TestAndBranch(LOrType(o.left), v, t, falseBB);
      ghost var g3, t3 := blocks, table;
      NewBlockStays(g0, c0, g1, g2, c2, g3, falseBB);
      WentAround(t0, c0, t1, t2, c2, t3, falseBB, vars);
      ValidMoves(t0, c0, falseBB, {});
      insertBB := falseBB;
      ScopeStill(t0, c0, t3, falseBB, vars, {}, sc);
      ghost var right;
      ok, v, right := VisitLAnd(o.land, sc);
      if !ok {
        return;
      }
      c := OrMore(left, test, zext, falseBB, right, v, Here());
      OrMorePlaced(c, |g0|);
      WentAfter(t0, c0, t3, falseBB, table, insertBB, vars, {});
      OrVisited(g0, c0, p, g1, g2, c2, g3, blocks, insertBB, falseBB, o.left, left, LOrType(o.left), v2, test, zext, t);
    }

    /** The final comparison of a condition and its branch. */
    method Branch(ty: Type, v: Operand, t: Block, f: Block) returns (test: Name)
      requires Open() && MayJump(table.dom, insertBB, t) && MayJump(table.dom, insertBB, f) && Usable(v)
      requires !ty.I1?
      modifies this`blocks, this`names, this`table, this`succs, this`preds
      ensures Valid() && Grown(old(blocks), insertBB, blocks, {}) && |blocks| == |old(blocks)|
      ensures BranchAt(blocks, ty, v, test, t, f, old(Here()))
      ensures Went(old(table), insertBB, table, insertBB, vars, {})
    {
      hide InOrder, Grown, TargetsOk, JumpsOk, Went, Has, Ends, UsableIn, MayJump, Lowering.Extends;
      ghost var g0, t0, c, p := blocks, table, insertBB, Here();
      test := Compare(ty, v);
      ghost var g1 := blocks;
      JumpStill(t0, c, table, c, vars, {}, t);
      JumpStill(t0, c, table, c, vars, {}, f);
      CreateCondBr(Ref(test), t, f);
      GrownMore(g0, insertBB, g1, insertBB, blocks, {});
      GrownExtends(g1, insertBB, blocks, {});
      HasExtends(g1, blocks, p, Op(test, NotEqual(ty), [v, Zero(ty)]));
    }

    /** A condition with its two targets on the stacks. */
    method VisitCond(o: LOr, t: Block, f: Block, ghost sc: set<nat>)
        returns (ok: bool, ghost c: OrCode, ghost test: Name)
      requires Open() && MayJump(table.dom, insertBB, t) && MayJump(table.dom, insertBB, f)
      requires ScopeIn(table, insertBB, sc) && LOrInScope(o, sc)
      modifies this`blocks, this`names, this`table, this`succs, this`preds, this`insertBB, this`falseStack,
        this`trueStack
      ensures ok <==> CondTyped(o)
      ensures ok ==> Valid() && trueStack == old(trueStack) && falseStack == old(falseStack)
      ensures ok ==> Grown(old(blocks), old(insertBB), blocks, {})
      ensures ok ==> OrAt(blocks, o, c, old(Here()), t, f) && BranchAt(blocks, LOrType(o), c.val, test, t, f, c.end)
      ensures ok ==> Went(old(table), old(insertBB), table, insertBB, vars, {})
      ensures ok ==> OrPlaced(c, |old(blocks)|) && |blocks| == |old(blocks)| + OrSize(c)
    {
      hide InOrder, Has, Ends, Grown, OrAt, BranchAt, Lowering.Extends, TargetsOk, JumpsOk, Went, ScopeIn, UsableIn,
           MayJump, OrPlaced, OrSize;
      ghost var g0, t0, c0, p := blocks, table, insertBB, Here();
      var trues, falses := trueStack, falseStack;
      MoreTarget(trues, table.dom, insertBB, t);
      MoreTarget(falses, table.dom, insertBB, f);
      trueStack := trueStack + [t];
      falseStack := falseStack + [f];
      var v;
      test := Tmp(0);
      ok, v, c := VisitLOr(o, sc);
      if !ok || LOrType(o).I1? {
        ok := false;
        return;
      }
      assert trueStack[..|trueStack| - 1] == trues && falseStack[..|falseStack| - 1] == falses;
      FewerTargets(trueStack, trues, t, table.dom, insertBB);
      FewerTargets(falseStack, falses, f, table.dom, insertBB);
      trueStack := trueStack[..|trueStack| - 1];
      falseStack := falseStack[..|falseStack| - 1];
      ghost var g1, t1, c1 := blocks, table, insertBB;
      JumpStill(t0, c0, t1, c1, vars, {}, t);
      JumpStill(t0, c0, t1, c1, vars, {}, f);
      var d := Branch(LOrType(o), v, t, f);
      test := d;
      WentAfter(t0, c0, t1, c1, table, c1, vars, {});
      GrownMore(g0, c0, g1, c1, blocks, {});
      GrownExtends(g1, c1, blocks, {});
      OrExtends(g1, blocks, o, c, p, t, f);
    }

    // Statements.

    /** The end of a branch of an if, or of a loop body. */
    method FinishBranch(next: Block, ghost c: Code, ghost p: Point)
      requires Valid() && MayJump(table.dom, insertBB, next)
      requires EndOf(c, p) == if IsTerminated() then Closed else Falls(Here())
      modifies this`blocks, this`succs, this`preds
      ensures Valid() && Grown(old(blocks), insertBB, blocks, {}) && GoesTo(blocks, c, p, next)
      ensures |blocks| == |old(blocks)|
    {
      hide InOrder, TargetsOk, JumpsOk, MayJump;
      if !IsTerminated() {
        CreateBr(next);
      }
    }

    /** Evaluates e and stores its value to x. */
    method VisitStore(e: Exp, x: nat, ghost sc: set<nat>)
      requires Open() && ScopeIn(table, insertBB, sc) && Storable(table, insertBB, x) && InScope(e, sc) && x !in arrays
      modifies this`blocks, this`names, this`table
      ensures Open() && Grown(old(blocks), insertBB, blocks, {insertBB}) && |blocks| == |old(blocks)|
      ensures StoresAt(blocks, e, x, old(Here()), Here()) && Went(old(table), insertBB, table, insertBB, vars, {})
      ensures ScopeIn(table, insertBB, {x})
    {
      hide ListsOk, NamesOk, DomOk, Grown, TargetsOk, JumpsOk, Went, Has, ScopeIn, Lowering.Extends, ExpAt, UsableIn,
           SlotIn, KnownStored;
      ghost var g0, t0, c, p := blocks, table, insertBB, Here();
      var v := VisitExp(e, sc);
      ghost var g1, t1, q := blocks, table, Here();
      StorableStill(t0, c, t1, vars, x);
      ExpPlain(g1, e, p, v, q);
      StoreAddable(t1, c, names, x, v);
      AddInstruction(Store(Ref(Slot(x)), v));
      NowStored(t1, c, table, vars, x);
      WentAfter(t0, c, t1, c, table, c, vars, {});
      GrownMore(g0, c, g1, c, blocks, {c});
      GrownExtends(g1, c, blocks, {c});
      ExpExtends(g1, blocks, e, p, v, q);
    }

    method VisitEvaluate(s: Stmt, ghost sc: set<nat>) returns (ghost c: Code)
      requires Open() && s.Evaluate? && WellScoped(s, sc, loopStack != []) && ScopeIn(table, insertBB, sc)
      modifies this`blocks, this`names, this`table
      ensures Open() && Grown(old(blocks), insertBB, blocks, {insertBB}) && |blocks| == |old(blocks)|
      ensures StmtAt(blocks, s, c, old(Here()), Innermost()) && c == Atom(Falls(Here()))
      ensures Went(old(table), insertBB, table, insertBB, vars, {}) && ScopeIn(table, insertBB, sc)
    {
      hide InOrder, Grown, TargetsOk, JumpsOk, Went, Has, ScopeIn, ExpAt;
      ghost var t0, p := table, Here();
      var v := VisitExp(s.exp, sc);
      ScopeStill(t0, insertBB, table, insertBB, vars, {}, sc);
      c := Atom(Falls(Here()));
      assert ExpAt(blocks, s.exp, p, v, c.end.p);
    }

    /** The variable gets its alloca before its initializer is evaluated. */
    method VisitDeclare(s: Stmt, ghost sc: set<nat>) returns (ghost c: Code)
      requires Open() && s.Declare? && WellScoped(s, sc, loopStack != [])
      requires ScopeIn(table, insertBB, sc) && Unused(table, {s.x}, vars) && (strict ==> s.init.Some?)
      requires s.x !in arrays
      modifies this`blocks, this`names, this`table
      ensures Open() && Grown(old(blocks), insertBB, blocks, {insertBB}) && |blocks| == |old(blocks)|
      ensures StmtAt(blocks, s, c, old(Here()), Innermost()) && c == Atom(Falls(Here()))
      ensures Went(old(table), insertBB, table, insertBB, vars, {s.x}) && ScopeIn(table, insertBB, sc + {s.x})
    {
      hide ListsOk, NamesOk, Grown, TargetsOk, JumpsOk, DomOk, Went, Has, ScopeIn, Lowering.Extends, StoresAt, Unused,
           Known, Storable, SlotIn;
      ghost var g0, t0, b, p := blocks, table, insertBB, Here();
      NotStored(blocks, table, names, s.x, vars);
      AllocaAddable(table, b, names, s.x, vars);
      AddInstruction(Alloca(Slot(s.x)));
      ghost var g1, t1 := blocks, table;
      NewSlot(t0, b, t1, s.x);
      ScopeStill(t0, b, t1, b, vars, {s.x}, sc);
      if s.init.Some? {
        VisitStore(s.init.value, s.x, sc);
        WentAfter(t0, b, t1, b, table, b, vars, {s.x});
        ScopeStill(t1, b, table, b, vars, {}, sc);
        GrownMore(g0, b, g1, b, blocks, {b});
        GrownExtends(g1, b, blocks, {b});
        HasExtends(g1, blocks, p, Alloca(Slot(s.x)));
      }
      ScopeMore(table, b, sc, s.x);
      c := Atom(Falls(Here()));
    }

    method VisitAssign(s: Stmt, ghost sc: set<nat>) returns (ghost c: Code)
      requires Open() && s.Assign? && WellScoped(s, sc, loopStack != []) && ScopeIn(table, insertBB, sc)
      requires s.x !in arrays
      modifies this`blocks, this`names, this`table
      ensures Open() && Grown(old(blocks), insertBB, blocks, {insertBB}) && |blocks| == |old(blocks)|
      ensures StmtAt(blocks, s, c, old(Here()), Innermost()) && c == Atom(Falls(Here()))
      ensures Went(old(table), insertBB, table, insertBB, vars, {}) && ScopeIn(table, insertBB, sc)
    {
      hide InOrder, Grown, TargetsOk, JumpsOk, Went, Has, ScopeIn, StoresAt, Storable;
      ghost var t0 := table;
      ScopeStorable(table, insertBB, sc, s.x);
      VisitStore(s.exp, s.x, sc);
      ScopeStill(t0, insertBB, table, insertBB, vars, {}, sc);
      c := Atom(Falls(Here()));
    }

    method VisitReturn(s: Stmt, ghost sc: set<nat>) returns (ghost c: Code)
      requires Open() && s.Return? && WellScoped(s, sc, loopStack != []) && ScopeIn(table, insertBB, sc)
      modifies this`blocks, this`names, this`table
      ensures Valid() && IsTerminated() && Grown(old(blocks), insertBB, blocks, {insertBB})
      ensures |blocks| == |old(blocks)| && StmtAt(blocks, s, c, old(Here()), Innermost()) && c == Atom(Closed)
      ensures Went(old(table), insertBB, table, insertBB, vars, {}) && ScopeIn(table, insertBB, sc)
    {
      hide InOrder, Grown, TargetsOk, JumpsOk, Went, Has, ScopeIn, Lowering.Extends, ExpAt, UsableIn;
      ghost var g0, t0, b, p := blocks, table, insertBB, Here();
      c := Atom(Closed);
      if s.result.None? {
        TableSame(b);
        CreateReturn(RetVoid);
      } else {
        var v := VisitExp(s.result.value, sc);
        ghost var g1, q := blocks, Here();
        ScopeStill(t0, b, table, b, vars, {}, sc);
        CreateReturn(Ret(v));
        GrownMore(g0, b, g1, b, blocks, {});
        GrownExtends(g1, b, blocks, {});
        ExpExtends(g1, blocks, s.result.value, p, v, q);
        assert Ends(blocks, q, Ret(v));
      }
      GrownWeaker(g0, b, blocks);
      EndsTerminated(g0, b, blocks);
    }

    /** break and continue. */
    method VisitJump(s: Stmt, ghost sc: set<nat>) returns (ghost c: Code)
      requires Open() && WellScoped(s, sc, loopStack != []) && (s.Break? || s.Continue?) && ScopeIn(table, insertBB, sc)
      modifies this`blocks, this`succs, this`preds
      ensures Valid() && IsTerminated() && Grown(old(blocks), insertBB, blocks, {insertBB})
      ensures |blocks| == |old(blocks)| && StmtAt(blocks, s, c, old(Here()), Innermost()) && c == Atom(Closed)
      ensures Went(old(table), insertBB, table, insertBB, vars, {}) && ScopeIn(table, insertBB, sc)
    {
      hide InOrder, Grown, TargetsOk, JumpsOk, Went, ScopeIn, MayJump;
      ghost var g0 := blocks;
      c := Atom(Closed);
      var jumps := loopStack[|loopStack| - 1];
      LastJumps(loopStack, table.dom, insertBB);
      TableSame(insertBB);
      CreateBr(if s.Break? then jumps.afterBB else jumps.testBB);
      EndsTerminated(g0, insertBB, blocks);
      GrownWeaker(g0, insertBB, blocks);
    }

    /** One branch: `stmt` in block `start`, and on to `next`. */
    method VisitBranch(stmt: Stmt, start: Block, next: Block, ghost sc: set<nat>) returns (ok: bool, ghost c: Code)
      requires ValidAt(start) && MayJump(table.dom, start, next) && blocks[start] == OpenBlock([], None)
      requires WellScoped(stmt, sc, loopStack != []) && NumberedOnce(stmt)
      requires Ready(table, start, sc, Declared(stmt), vars)
      requires strict ==> Initialised(stmt)
      requires Keeps(stmt, arrays)
      modifies this
      ensures ok <==> Typed(stmt)
      ensures ok ==> Valid() && trueStack == old(trueStack) && falseStack == old(falseStack)
      ensures ok ==> loopStack == old(loopStack)
      ensures ok ==> Grown(old(blocks), start, blocks, {}) && GoesTo(blocks, c, At(start, 0), next)
      ensures ok ==> StmtAt(blocks, stmt, c, At(start, 0), Innermost())
      ensures ok ==> Placed(c, |old(blocks)|) && |blocks| == |old(blocks)| + CodeSize(c)
      ensures ok ==> Went(old(table), start, table, insertBB, vars, Declared(stmt))
      decreases stmt, 3
    {
      hide InOrder, Has, Ends, Grown, StmtAt, GoesTo, Lowering.Extends, TargetsOk, JumpsOk, Went, Ready, MayJump,
           ScopeIn, Placed, CodeSize, Declared, NumberedOnce, WellScoped, EndOf;
      insertBB := start;
      ghost var g0, t0, p := blocks, table, Here();
      ok, c := VisitStmt(stmt, sc);
      if !ok {
        return;
      }
      ghost var g1, c1 := blocks, insertBB;
      JumpStill(t0, start, table, c1, vars, Declared(stmt), next);
      GrownExtends(g0, start, g1, {c1});
      FinishBranch(next, c, p);
      GrownMore(g0, start, g1, c1, blocks, {});
      GrownExtends(g1, c1, blocks, {});
      StmtExtends(g1, blocks, stmt, c, p, Innermost());
    }

    /** An if without else goes straight on. */
    method SkipBranch(start: Block, next: Block)
      requires ValidAt(start) && MayJump(table.dom, start, next) && blocks[start] == OpenBlock([], None)
      modifies this`blocks, this`succs, this`preds, this`insertBB
      ensures Valid() && insertBB == start && Grown(old(blocks), start, blocks, {})
      ensures GoesTo(blocks, Nothing, At(start, 0), next) && |blocks| == |old(blocks)|
      ensures Went(table, start, table, start, vars, {})
    {
      hide InOrder, Grown, TargetsOk, JumpsOk, Went, MayJump;
      insertBB := start;
      TableSame(start);
      CreateBr(next);
    }

    /** The branch for a false condition. */
    method VisitElse(stmt: Option<Stmt>, start: Block, next: Block, ghost sc: set<nat>)
        returns (ok: bool, ghost c: Code)
      requires ValidAt(start) && MayJump(table.dom, start, next) && blocks[start] == OpenBlock([], None)
      requires stmt.Some? ==> WellScoped(stmt.value, sc, loopStack != []) && NumberedOnce(stmt.value)
      requires Ready(table, start, sc, ElseDeclares(stmt), vars)
      requires stmt.Some? ==> (strict ==> Initialised(stmt.value)) && Keeps(stmt.value, arrays)
      modifies this
      ensures ok <==> stmt.None? || Typed(stmt.value)
      ensures ok ==> Valid() && trueStack == old(trueStack) && falseStack == old(falseStack)
      ensures ok ==> loopStack == old(loopStack)
      ensures ok ==> Grown(old(blocks), start, blocks, {}) && GoesTo(blocks, c, At(start, 0), next)
      ensures ok ==> if stmt.None? then c == Nothing else StmtAt(blocks, stmt.value, c, At(start, 0), Innermost())
      ensures ok ==> Placed(c, |old(blocks)|) && |blocks| == |old(blocks)| + CodeSize(c)
      ensures ok ==> Went(old(table), start, table, insertBB, vars, ElseDeclares(stmt))
      decreases stmt, 3
    {
      hide InOrder, Has, Ends, Grown, StmtAt, GoesTo, Lowering.Extends, Placed, CodeSize, TargetsOk, JumpsOk, Went,
           Ready, MayJump, Declared;
      if stmt.Some? {
        ok, c := VisitBranch(stmt.value, start, next, sc);
      } else {
        ok, c := true, Nothing;
        NothingPlaced(|blocks|);
        SkipBranch(start, next);
      }
    }

    method VisitIf(s: Stmt, ghost sc: set<nat>) returns (ok: bool, ghost c: Code)
      requires Open() && s.If? && WellScoped(s, sc, loopStack != []) && NumberedOnce(s)
      requires Ready(table, insertBB, sc, Declared(s), vars)
      requires strict ==> Initialised(s)
      requires Keeps(s, arrays)
      modifies this
      ensures ok <==> Typed(s)
      ensures ok ==> Open() && trueStack == old(trueStack) && falseStack == old(falseStack)
      ensures ok ==> loopStack == old(loopStack)
      ensures ok ==> Grown(old(blocks), old(insertBB), blocks, {insertBB})
      ensures ok ==> StmtAt(blocks, s, c, old(Here()), Innermost()) && EndOf(c, old(Here())) == Falls(Here())
      ensures ok ==> Placed(c, |old(blocks)|) && |blocks| == |old(blocks)| + CodeSize(c)
      ensures ok ==> Went(old(table), old(insertBB), table, insertBB, vars, Declared(s))
      decreases s, 1
    {
      hide InOrder, Has, Ends, Grown, OrAt, BranchAt, GoesTo, Lowering.Extends, StmtAt, EndOf, TargetsOk, JumpsOk,
           Went, Ready, ScopeIn, MayJump, Siblings, Placed, OrPlaced, CodeSize, OrSize, WellScoped, NumberedOnce,
           Declared, ElseDeclares, Initialised, Keeps, Typed, CondTyped, LOrInScope, BranchesAt;
      IfParts(s, sc, loopStack != [], arrays);
      ghost var g0, t0, c0, p := blocks, table, insertBB, Here();
      var trueBB, falseBB, mergeBB := CreateThree();
      ghost var g1, t1 := blocks, table;
      ReadyStill(t0, c0, t1, c0, vars, {}, sc, Declared(s));
      ReadyScope(t1, c0, sc, Declared(s), vars);
      FirstJumps(t1, c0, trueBB);
      c := Nothing;
      ghost var cond, test, g3;
      ok, cond, test := VisitCond(s.cond, trueBB, falseBB, sc);
      if !ok {
        return;
      }
      ghost var g2 := blocks;
      ThreeStay(g0, c0, g1, c0, g2);
      WentBack(t1, c0, table, insertBB, trueBB, vars);
      ReadyStill(t1, c0, table, c0, vars, {}, sc, Declared(s));
      ValidMoves(t1, c0, c0, {});
      WentBefore(t0, c0, t1, c0, table, c0, vars, {});
      ghost var t2 := table;
      ok, c, g3 := VisitBranches(s, trueBB, falseBB, mergeBB, cond, test, c0, sc);
      if !ok {
        return;
      }
      WentBefore(t0, c0, t2, c0, table, mergeBB, vars, Declared(s));
      insertBB := mergeBB;
      BranchesShape(s, g3, blocks, c, trueBB, cond, test, Innermost());
      ChoicePlaced(c, |g0|);
      IfVisited(g0, c0, g1, g2, g3, blocks, s, c, p, Innermost(), cond, test);
    }

    /** Both branches of an if, on to its merge block. */
    method VisitBranches(s: Stmt, trueBB: Block, falseBB: Block, mergeBB: Block, ghost cond: OrCode, ghost test: Name,
        ghost c0: Block, ghost sc: set<nat>) returns (ok: bool, ghost c: Code, ghost g1: Cfg)
      requires ValidAt(c0) && s.If? && WellScoped(s, sc, loopStack != []) && NumberedOnce(s)
      requires ENTRY < trueBB && falseBB == trueBB + 1 && mergeBB == trueBB + 2 && mergeBB < |blocks|
      requires blocks[trueBB] == blocks[falseBB] == blocks[mergeBB] == OpenBlock([], None)
      requires Siblings(table.dom, c0, trueBB) && Ready(table, c0, sc, Declared(s), vars)
      requires strict ==> Initialised(s)
      requires Keeps(s, arrays)
      modifies this
      ensures ok <==> Typed(s.thenStmt) && (s.elseStmt.None? || Typed(s.elseStmt.value))
      ensures ok ==> ValidAt(mergeBB) && trueStack == old(trueStack) && falseStack == old(falseStack)
      ensures ok ==> loopStack == old(loopStack)
      ensures ok ==> Grown(old(blocks), trueBB, g1, {}) && Grown(g1, falseBB, blocks, {})
      ensures ok ==> BranchesAt(s, g1, blocks, c, trueBB, cond, test, Innermost())
      ensures ok ==> mergeBB < |blocks| && blocks[mergeBB] == OpenBlock([], None)
      ensures ok ==> Placed(c.thenCode, |old(blocks)|) && Placed(c.elseCode, |old(blocks)| + CodeSize(c.thenCode))
      ensures ok ==> |blocks| == |old(blocks)| + CodeSize(c.thenCode) + CodeSize(c.elseCode)
      ensures ok ==> Went(old(table), c0, table, mergeBB, vars, Declared(s))
      decreases s, 0
    {
      hide InOrder, Has, Ends, Grown, OrAt, BranchAt, GoesTo, Lowering.Extends, StmtAt, EndOf, TargetsOk, JumpsOk,
           Went, Ready, ScopeIn, MayJump, Siblings, Placed, OrPlaced, CodeSize, OrSize, WellScoped, NumberedOnce,
           Declared, ElseDeclares, Initialised, Keeps, Typed, CondTyped, LOrInScope;
      IfParts(s, sc, loopStack != [], arrays);
      ghost var g0, t0 := blocks, table;
      ghost var dt, de := Declared(s.thenStmt), ElseDeclares(s.elseStmt);
      ReadySplit(t0, c0, sc, dt, de, vars);
      TableSame(c0);
      NextBranch(t0, c0, t0, c0, trueBB, trueBB, vars, {}, sc, dt);
      ValidMoves(t0, c0, trueBB, {});
      c, g1 := Nothing, blocks;
      ghost var t, e;
      ok, t := VisitBranch(s.thenStmt, trueBB, mergeBB, sc);
      if !ok {
        return;
      }
      g1 := blocks;
      ghost var t1 := table;
      OthersStay(g0[..trueBB], g0, trueBB, g1);
      WentBefore(t0, c0, t0, trueBB, t1, insertBB, vars, dt);
      NextBranch(t0, c0, t1, insertBB, falseBB, trueBB, vars, dt, sc, de);
      ValidMoves(t0, c0, falseBB, dt);
      ok, e := VisitElse(s.elseStmt, falseBB, mergeBB, sc);
      if !ok {
        return;
      }
      OthersStay(g0[..trueBB], g1, falseBB, blocks);
      c := Choice(cond, test, trueBB, falseBB, mergeBB, t, e);
      WentThen(t0, c0, t1, falseBB, table, insertBB, vars, dt, de);
      WentTo(t0, c0, table, insertBB, mergeBB, trueBB, vars, dt + de);
      ValidMoves(t0, c0, mergeBB, dt + de);
    }

    method VisitWhile(s: Stmt, ghost sc: set<nat>) returns (ok: bool, ghost c: Code)
      requires Open() && s.While? && WellScoped(s, sc, loopStack != []) && NumberedOnce(s)
      requires Ready(table, insertBB, sc, Declared(s), vars)
      requires strict ==> Initialised(s)
      requires Keeps(s, arrays)
      modifies this
      ensures ok <==> Typed(s)
      ensures ok ==> Open() && trueStack == old(trueStack) && falseStack == old(falseStack)
      ensures ok ==> loopStack == old(loopStack)
      ensures ok ==> Grown(old(blocks), old(insertBB), blocks, {insertBB})
      ensures ok ==> StmtAt(blocks, s, c, old(Here()), Innermost()) && EndOf(c, old(Here())) == Falls(Here())
      ensures ok ==> Placed(c, |old(blocks)|) && |blocks| == |old(blocks)| + CodeSize(c)
      ensures ok ==> Went(old(table), old(insertBB), table, insertBB, vars, Declared(s))
      decreases s, 1
    {
      hide InOrder, Has, Ends, Grown, OrAt, BranchAt, GoesTo, Lowering.Extends, StmtAt, EndOf, TargetsOk, JumpsOk,
           Went, Ready, MayJump, Siblings, Placed, OrPlaced, CodeSize, OrSize;
      ghost var g0, t0, c0, p := blocks, table, insertBB, Here();
      var testBB, condBB, afterBB := CreateThree();
      ghost var g1, t1 := blocks, table;
      ReadyStill(t0, c0, t1, c0, vars, {}, sc, Declared(s));
      FirstJumps(t1, c0, testBB);
      c := Nothing;
      CreateBr(testBB);
      ghost var g2 := blocks;
      ThreeStay(g0, c0, g1, c0, g2);
      insertBB := testBB;
      ghost var g3;
      ok, c, g3 := VisitLoop(s, testBB, condBB, afterBB, c0, sc);
      if !ok {
        return;
      }
      WentBefore(t0, c0, t1, c0, table, afterBB, vars, Declared(s));
      insertBB := afterBB;
      LoopPlaced(c, |g0|);
      WhileVisited(g0, c0, g1, g2, g3, blocks, s, c, p, Innermost());
    }

    /** Condition and body of a loop, with its targets on the loop stack. */
    method VisitLoop(s: Stmt, testBB: Block, condBB: Block, afterBB: Block, ghost c0: Block, ghost sc: set<nat>)
        returns (ok: bool, ghost c: Code, ghost g1: Cfg)
      requires ValidAt(c0) && s.While? && WellScoped(s, sc, loopStack != []) && insertBB == testBB && NumberedOnce(s)
      requires ENTRY < testBB && condBB == testBB + 1 && afterBB == testBB + 2 && afterBB < |blocks|
      requires blocks[testBB] == blocks[condBB] == blocks[afterBB] == OpenBlock([], None)
      requires Siblings(table.dom, c0, testBB) && Ready(table, c0, sc, Declared(s), vars)
      requires strict ==> Initialised(s)
      requires Keeps(s, arrays)
      modifies this
      ensures ok <==> Typed(s)
      ensures ok ==> ValidAt(afterBB) && trueStack == old(trueStack) && falseStack == old(falseStack)
      ensures ok ==> loopStack == old(loopStack)
      ensures ok ==> Grown(old(blocks), testBB, g1, {}) && Grown(g1, condBB, blocks, {})
      ensures ok ==> LoopAt(s, g1, blocks, c, testBB) && afterBB < |blocks| && blocks[afterBB] == OpenBlock([], None)
      ensures ok ==> OrPlaced(c.cond, |old(blocks)|) && Placed(c.body, |old(blocks)| + OrSize(c.cond))
      ensures ok ==> |blocks| == |old(blocks)| + OrSize(c.cond) + CodeSize(c.body)
      ensures ok ==> Went(old(table), c0, table, afterBB, vars, Declared(s))
      decreases s, 0
    {
      hide InOrder, Has, Ends, Grown, OrAt, BranchAt, GoesTo, Lowering.Extends, StmtAt, EndOf, TargetsOk, JumpsOk,
           Went, Ready, MayJump, Siblings, ScopeIn, Placed, OrPlaced, CodeSize, OrSize;
      ghost var g0, t0, d := blocks, table, Declared(s.body);
      var outer := loopStack;
      TableSame(c0);
      FirstJumps(table, c0, testBB);
      MoreJumps(outer, table.dom, c0, Jumps(testBB, afterBB));
      loopStack := loopStack + [Jumps(testBB, afterBB)];
      NextBranch(t0, c0, t0, c0, testBB, testBB, vars, {}, sc, d);
      ValidMoves(t0, c0, testBB, {});
      c, g1 := Nothing, blocks;
      ghost var cond, test, body;
      ReadyScope(t0, testBB, sc, d, vars);
      ok, cond, test := VisitCond(s.cond, condBB, afterBB, sc);
      if !ok {
        return;
      }
      g1 := blocks;
      ghost var t1 := table;
      OthersStay(g0[..testBB], g0, testBB, g1);
      WentBefore(t0, c0, t0, testBB, t1, insertBB, vars, {});
      NextBranch(t0, c0, t1, insertBB, condBB, testBB, vars, {}, sc, d);
      ValidMoves(t0, c0, condBB, {});
      ok, body := VisitBranch(s.body, condBB, testBB, sc);
      if !ok {
        return;
      }
      OthersStay(g0[..testBB], g1, condBB, blocks);
      c := Loop(cond, test, testBB, condBB, afterBB, body);
      WentBefore(t0, c0, t1, condBB, table, insertBB, vars, d);
      WentTo(t0, c0, table, insertBB, afterBB, testBB, vars, d);
      ValidMoves(t0, c0, afterBB, d);
      assert loopStack[..|loopStack| - 1] == outer;
      FewerJumps(loopStack, outer, Jumps(testBB, afterBB), table.dom, afterBB);
      loopStack := loopStack[..|loopStack| - 1];
    }

    /** The blocks of an if or a loop. */
    method CreateThree() returns (x: Block, y: Block, z: Block)
      requires Valid()
      modifies this`blocks, this`succs, this`preds, this`table
      ensures Valid() && x == |old(blocks)| && y == x + 1 && z == x + 2 && |blocks| == |old(blocks)| + 3
      ensures Grown(old(blocks), insertBB, blocks, {insertBB, x, y, z}) && blocks[insertBB] == old(blocks)[insertBB]
      ensures forall b :: x <= b < |blocks| ==> blocks[b] == OpenBlock([], None)
      ensures Went(old(table), insertBB, table, insertBB, vars, {}) && Siblings(table.dom, insertBB, x)
    {
      hide InOrder, Grown, TargetsOk, JumpsOk, Went, MayJump;
      ghost var g0, t0, c := blocks, table, insertBB;
      x := CreateBlock();
      ghost var t1 := table;
      y := CreateBlock();
      ghost var t2 := table;
      z := CreateBlock();
      WentAfter(t0, c, t1, c, t2, c, vars, {});
      WentAfter(t0, c, t2, c, table, c, vars, {});
      ThreeBlocks(g0, insertBB, blocks);
      ThreeSiblings(t1, t2, table, c, x, vars);
    }

    /** The items of a block, up to the first that jumps away. */
    method VisitItems(items: Items, ghost sc: set<nat>) returns (ok: bool, ghost c: Code)
      requires Open() && ItemsScoped(items, sc, loopStack != []) && ItemsNumbered(items)
      requires Ready(table, insertBB, sc, ItemsDeclared(items), vars)
      requires (strict ==> ItemsInitialised(items)) && ItemsKeep(items, arrays)
      modifies this
      ensures ok <==> ItemsTyped(items)
      ensures ok ==> Valid() && trueStack == old(trueStack) && falseStack == old(falseStack)
      ensures ok ==> loopStack == old(loopStack)
      ensures ok ==> Grown(old(blocks), old(insertBB), blocks, {insertBB})
      ensures ok ==> ItemsAt(blocks, items, c, old(Here()), Innermost())
      ensures ok ==> Placed(c, |old(blocks)|) && |blocks| == |old(blocks)| + CodeSize(c)
      ensures ok ==> EndOf(c, old(Here())) == (if IsTerminated() then Closed else Falls(Here()))
      ensures ok ==> (IsTerminated() <==> ItemsClose(items))
      ensures ok ==> Went(old(table), old(insertBB), table, insertBB, vars, ItemsDeclared(items))
      decreases items, 0
    {
      hide InOrder, Has, Ends, Grown, StmtAt, Lowering.Extends, Placed, CodeSize, TargetsOk, JumpsOk, Went, Ready,
           ScopeIn, WellScoped, Declared, Declares, NumberedOnce, Initialised, Keeps, Typed, ItemsScoped, ItemsNumbered,
           ItemsDeclared, ItemsInitialised, ItemsKeep, ItemsTyped, ItemsClose, Closes, ItemsAt,
           EndOf, AppendCode, AppendItem, Concat, IsList;
      NothingPlaced(|blocks|);
      NoCode(blocks, items, Here(), Innermost());
      ghost var g0, t0, c0, p, jumps := blocks, table, insertBB, Here(), Innermost();
      GrownRefl(g0, c0);
      TableSame(c0);
      ghost var seen, scope, decl := Done, sc, {};
      var rest := items;
      ok, c := true, Nothing;
      while rest.Item?
        invariant ok && Open() && Concat(seen, rest) == items && (rest == items || rest < items)
        invariant trueStack == old(trueStack) && falseStack == old(falseStack) && loopStack == old(loopStack)
        invariant Grown(g0, c0, blocks, {insertBB}) && ItemsAt(blocks, seen, c, p, jumps)
        invariant EndOf(c, p) == Falls(Here())
        invariant IsList(c) && Placed(c, |g0|) && |blocks| == |g0| + CodeSize(c)
        invariant ItemsScoped(rest, scope, loopStack != []) && ItemsNumbered(rest)
        invariant ItemsTyped(items) <==> ItemsTyped(rest)
        invariant ItemsClose(items) <==> ItemsClose(rest)
        invariant Went(t0, c0, table, insertBB, vars, decl) && decl + ItemsDeclared(rest) == ItemsDeclared(items)
        invariant Ready(table, insertBB, scope, ItemsDeclared(rest), vars)
        invariant (strict ==> ItemsInitialised(rest)) && ItemsKeep(rest, arrays)
        decreases rest
      {
        ghost var g1, t1, c1, x := blocks, table, insertBB, Nothing;
        ghost var d, ds := Declared(rest.head), ItemsDeclared(rest.tail);
        ItemsParts(rest, scope, loopStack != [], arrays);
        ReadySplit(t1, c1, scope, d, ds, vars);
        ok, x := VisitStmt(rest.head, scope);
        if !ok {
          return;
        }
        ItemAppended(g0, c0, g1, c1, blocks, insertBB, seen, c, p, rest.head, x, jumps);
        ConcatItem(seen, rest.head, rest.tail);
        WentThen(t0, c0, t1, c1, table, insertBB, vars, decl, d);
        ReadyNext(t1, c1, table, insertBB, vars, scope, scope + Declares(rest.head), d, ds);
        assert decl + d + ds == ItemsDeclared(items);
        scope, decl := scope + Declares(rest.head), decl + d;
        c, seen := AppendCode(c, x), AppendItem(seen, rest.head);
        rest := rest.tail;
        if IsTerminated() {
          ClosedAt(blocks, seen, c, p, rest, jumps);
          WentMore(t0, c0, table, insertBB, vars, decl, ItemsDeclared(items));
          return;
        }
      }
      ConcatDone(seen);
      NoItems();
      assert decl == ItemsDeclared(items);
    }

    /** Statements without statements in them. */
    method VisitAtom(s: Stmt, ghost sc: set<nat>) returns (ghost c: Code)
      requires Open() && IsAtom(s) && WellScoped(s, sc, loopStack != [])
      requires ScopeIn(table, insertBB, sc) && Unused(table, Declared(s), vars)
      requires strict ==> Initialised(s)
      requires Keeps(s, arrays)
      modifies this`blocks, this`names, this`table, this`succs, this`preds
      ensures Valid() && Grown(old(blocks), insertBB, blocks, {insertBB}) && |blocks| == |old(blocks)|
      ensures StmtAt(blocks, s, c, old(Here()), Innermost())
      ensures c == Atom(if IsTerminated() then Closed else Falls(Here())) && (IsTerminated() <==> Closes(s))
      ensures Went(old(table), insertBB, table, insertBB, vars, Declared(s))
      ensures ScopeIn(table, insertBB, sc + Declares(s))
    {
      hide InOrder, Grown, TargetsOk, JumpsOk, Went, ScopeIn, Unused, StmtAt;
      assert s.Declare? || sc + Declares(s) == sc;
      if s.Evaluate? {
        c := VisitEvaluate(s, sc);
      } else if s.Declare? {
        c := VisitDeclare(s, sc);
      } else if s.Assign? {
        c := VisitAssign(s, sc);
      } else if s.Return? {
        c := VisitReturn(s, sc);
      } else {
        c := VisitJump(s, sc);
      }
    }

    method VisitStmt(s: Stmt, ghost sc: set<nat>) returns (ok: bool, ghost c: Code)
      requires Open() && WellScoped(s, sc, loopStack != []) && NumberedOnce(s)
      requires Ready(table, insertBB, sc, Declared(s), vars)
      requires strict ==> Initialised(s)
      requires Keeps(s, arrays)
      modifies this
      ensures ok <==> Typed(s)
      ensures ok ==> Valid() && trueStack == old(trueStack) && falseStack == old(falseStack)
      ensures ok ==> loopStack == old(loopStack)
      ensures ok ==> Grown(old(blocks), old(insertBB), blocks, {insertBB})
      ensures ok ==> StmtAt(blocks, s, c, old(Here()), Innermost())
      ensures ok ==> Placed(c, |old(blocks)|) && |blocks| == |old(blocks)| + CodeSize(c)
      ensures ok ==> EndOf(c, old(Here())) == (if IsTerminated() then Closed else Falls(Here()))
      ensures ok ==> (IsTerminated() <==> Closes(s))
      ensures ok ==> Went(old(table), old(insertBB), table, insertBB, vars, Declared(s))
      ensures ok ==> ScopeIn(table, insertBB, sc + Declares(s))
      decreases s, 2
    {
      hide InOrder, Grown, Placed, TargetsOk, JumpsOk, Went, Ready, ScopeIn, Unused, Declares;
      ghost var t0, c0, n := table, insertBB, |blocks|;
      ReadyScope(table, insertBB, sc, Declared(s), vars);
      ok := true;
      match s {
        case Block(items) => ok, c := VisitItems(items, sc);
        case If(_, _, _) => ok, c := VisitIf(s, sc);
        case While(_, _) => ok, c := VisitWhile(s, sc);
        case _ =>
          c := VisitAtom(s, sc);
          AtomPlaced(c, n);
      }
      if ok && !IsAtom(s) {
        ScopeStill(t0, c0, table, insertBB, vars, Declared(s), sc);
        NothingDeclared(table, insertBB, sc, s);
      }
    }

    /** Each parameter gets an alloca and is stored to it. */
    method VisitParams(n: nat)
      requires Open() && blocks == [OpenBlock([], None)] && insertBB == ENTRY && table.loc == map[] && n <= vars
      modifies this`blocks, this`names, this`table
      ensures Open() && Grown(old(blocks), ENTRY, blocks, {ENTRY}) && |blocks| == 1
      ensures ParamsAt(blocks, n) && Here() == Start(n)
      ensures Went(old(table), ENTRY, table, ENTRY, vars, Below(n)) && ScopeIn(table, ENTRY, Below(n))
    {
      hide InOrder, Grown, TargetsOk, JumpsOk, Went, Has, ScopeIn, Lowering.Extends, Unused, Known;
      ghost var g0, t0 := blocks, table;
      GrownRefl(g0, ENTRY);
      TableSame(ENTRY);
      WentMore(t0, ENTRY, t0, ENTRY, vars, {}, Below(0));
      NoScope(t0, ENTRY);
      for i := 0 to n
        invariant Open() && insertBB == ENTRY && Grown(g0, ENTRY, blocks, {ENTRY}) && |blocks| == 1
        invariant ParamsAt(blocks, i) && Here() == Start(i)
        invariant Went(t0, ENTRY, table, ENTRY, vars, Below(i)) && ScopeIn(table, ENTRY, Below(i))
      {
        VisitParam(i, g0, t0);
      }
    }

    method VisitParam(i: nat, ghost g0: Cfg, ghost t0: Table)
      requires Open() && insertBB == ENTRY && Grown(g0, ENTRY, blocks, {ENTRY}) && |blocks| == 1
      requires ParamsAt(blocks, i) && Here() == Start(i) && i < vars && t0.loc == map[]
      requires Went(t0, ENTRY, table, ENTRY, vars, Below(i)) && ScopeIn(table, ENTRY, Below(i))
      modifies this`blocks, this`names, this`table
      ensures Open() && Grown(g0, ENTRY, blocks, {ENTRY}) && |blocks| == 1
      ensures ParamsAt(blocks, i + 1) && Here() == Start(i + 1)
      ensures Went(t0, ENTRY, table, ENTRY, vars, Below(i + 1)) && ScopeIn(table, ENTRY, Below(i + 1))
    {
      hide ListsOk, NamesOk, Grown, TargetsOk, JumpsOk, DomOk, Went, Has, ScopeIn, Lowering.Extends, Unused, Known,
           ParamsAt, Storable, SlotIn, KnownStored;
      ghost var g1, t1 := blocks, table;
      NextUnused(t0, t1, i, vars);
      NotStored(blocks, table, names, i, vars);
      AllocaAddable(t1, ENTRY, names, i, vars);
      AddInstruction(Alloca(Slot(i)));
      ghost var g2, t2 := blocks, table;
      NewSlot(t1, ENTRY, t2, i);
      PlainUsable(t2, ENTRY, Arg(i));
      StoreAddable(t2, ENTRY, names, i, Arg(i));
      AddInstruction(Store(Ref(Slot(i)), Arg(i)));
      WentAfter(t1, ENTRY, t2, ENTRY, table, ENTRY, vars, {i});
      ScopeStill(t1, ENTRY, table, ENTRY, vars, {i}, Below(i));
      NowStored(t2, ENTRY, table, vars, i);
      ScopeMore(table, ENTRY, Below(i), i);
      WentThen(t0, ENTRY, t1, ENTRY, table, ENTRY, vars, Below(i), {i});
      assert Below(i) + {i} == Below(i + 1);
      GrownMore(g1, ENTRY, g2, ENTRY, blocks, {ENTRY});
      GrownMore(g0, ENTRY, g1, ENTRY, blocks, {ENTRY});
      GrownExtends(g1, ENTRY, blocks, {ENTRY});
      GrownExtends(g2, ENTRY, blocks, {ENTRY});
      HasExtends(g2, blocks, Start(i), Alloca(Slot(i)));
      MoreParams(g1, blocks, i);
    }

    /** Parameters and body in the entry block, with the default return where control falls off its end. */
    method VisitFuncDef(n: nat, body: Stmt, last: Terminator) returns (ok: bool, ghost c: Code)
      requires Open() && blocks == [OpenBlock([], None)] && insertBB == ENTRY && table.loc == map[]
      requires trueStack == [] && falseStack == [] && loopStack == [] && n <= vars
      requires WellScoped(body, Below(n), false) && NumberedOnce(body)
      requires forall x :: x in Declared(body) ==> n <= x < vars
      requires IsDefault(last)
      requires strict ==> Initialised(body)
      requires Keeps(body, arrays) && forall x :: x in arrays ==> x < n
      modifies this
      ensures ok <==> Typed(body)
      ensures ok ==> Complete(blocks) && ListsOk(blocks, succs, preds) && DomOk(blocks, table.dom)
      ensures ok ==> FunctionAt(blocks, n, body, c, last)
      ensures ok ==> NamesOk(blocks, table, names) && Placed(c, 1) && |blocks| == 1 + CodeSize(c)
      ensures ok ==> trueStack == [] && falseStack == [] && loopStack == []
      ensures ok ==> table.strict == strict && table.arrays == arrays
    {
      hide Has, Ends, ListsOk, NamesOk, Grown, StmtAt, Lowering.Extends, EndOf, TargetsOk, JumpsOk, DomOk, Went,
           ScopeIn, Ready, ParamsAt, UsableIn, Placed, CodeSize;
      ghost var g0, t0 := blocks, table;
      VisitParams(n);
      ghost var g1, p := blocks, Here();
      BodyReady(t0, table, n, Declared(body), vars);
      ok, c := VisitStmt(body, Below(n));
      if !ok {
        return;
      }
      ghost var g2, c2 := blocks, insertBB;
      GrownMore(g0, ENTRY, g1, ENTRY, g2, {c2});
      GrownExtends(g1, ENTRY, g2, {c2});
      ParamsExtend(g1, g2, n);
      AllClosed(g0, g2, c2);
      if !IsTerminated() {
        if last.Ret? { PlainUsable(table, insertBB, last.val); }
        CreateReturn(last);
        NothingOpen(g0, g2, c2, blocks);
        GrownExtends(g2, c2, blocks, {});
        StmtExtends(g2, blocks, body, c, p, None);
        ParamsExtend(g2, blocks, n);
      }
    }
  }

  /** What is required of an if and how it is typed, part by part. */
  lemma IfParts(s: Stmt, sc: set<nat>, inLoop: bool, xs: set<nat>)
    requires s.If? && WellScoped(s, sc, inLoop) && NumberedOnce(s) && Keeps(s, xs)
    ensures LOrInScope(s.cond, sc) && WellScoped(s.thenStmt, sc, inLoop) && NumberedOnce(s.thenStmt)
    ensures Keeps(s.thenStmt, xs) && (Initialised(s) ==> Initialised(s.thenStmt))
    ensures s.elseStmt.Some? ==>
              var e := s.elseStmt.value;
              && WellScoped(e, sc, inLoop) && NumberedOnce(e) && Keeps(e, xs) && (Initialised(s) ==> Initialised(e))
    ensures Declared(s) == Declared(s.thenStmt) + ElseDeclares(s.elseStmt)
    ensures Declared(s.thenStmt) !! ElseDeclares(s.elseStmt)
    ensures Typed(s) <==>
            CondTyped(s.cond) && Typed(s.thenStmt) && (s.elseStmt.None? || Typed(s.elseStmt.value))
  {
    hide LOrInScope, CondTyped;
  }

  /** The same for the items of a block. */
  lemma ItemsParts(items: Items, sc: set<nat>, inLoop: bool, xs: set<nat>)
    requires items.Item? && ItemsScoped(items, sc, inLoop) && ItemsNumbered(items) && ItemsKeep(items, xs)
    ensures WellScoped(items.head, sc, inLoop) && ItemsScoped(items.tail, sc + Declares(items.head), inLoop)
    ensures NumberedOnce(items.head) && ItemsNumbered(items.tail) && Keeps(items.head, xs) && ItemsKeep(items.tail, xs)
    ensures ItemsInitialised(items) ==> Initialised(items.head) && ItemsInitialised(items.tail)
    ensures ItemsDeclared(items) == Declared(items.head) + ItemsDeclared(items.tail)
    ensures Declared(items.head) !! ItemsDeclared(items.tail)
    ensures ItemsTyped(items) <==> Typed(items.head) && (Closes(items.head) || ItemsTyped(items.tail))
    ensures ItemsClose(items) <==> Closes(items.head) || ItemsClose(items.tail)
  {
  }

  lemma NoCode(g: Cfg, items: Items, p: Point, jumps: Option<Jumps>)
    ensures ItemsAt(g, Done, Nothing, p, jumps) && EndOf(Nothing, p) == Falls(p) && IsList(Nothing)
    ensures Concat(Done, items) == items
  {
  }

  /** One more item behind those that have been visited. */
  lemma ItemAppended(g0: Cfg, c0: Block, g1: Cfg, c1: Block, g2: Cfg, c2: Block, seen: Items, c: Code, p: Point,
      s: Stmt, x: Code, jumps: Option<Jumps>)
    requires Grown(g0, c0, g1, {c1}) && Grown(g1, c1, g2, {c2}) && ItemsAt(g1, seen, c, p, jumps)
    requires EndOf(c, p).Falls? && StmtAt(g2, s, x, EndOf(c, p).p, jumps)
    requires IsList(c) && Placed(c, |g0|) && Placed(x, |g0| + CodeSize(c))
    ensures Grown(g0, c0, g2, {c2}) && ItemsAt(g2, AppendItem(seen, s), AppendCode(c, x), p, jumps)
    ensures EndOf(AppendCode(c, x), p) == EndOf(x, EndOf(c, p).p)
    ensures IsList(AppendCode(c, x)) && Placed(AppendCode(c, x), |g0|)
    ensures CodeSize(AppendCode(c, x)) == CodeSize(c) + CodeSize(x)
  {
    hide Grown, Lowering.Extends, StmtAt, ItemsAt, EndOf, AppendCode, AppendItem, IsList, Placed, CodeSize;
    GrownExtends(g1, c1, g2, {c2});
    GrownMore(g0, c0, g1, c1, g2, {c2});
    ItemsExtend(g1, g2, seen, c, p, jumps);
    AppendAt(g2, seen, c, p, s, x, jumps);
    AppendPlaced(c, x, |g0|);
  }

  lemma NoItems()
    ensures ItemsTyped(Done) && !ItemsClose(Done) && ItemsDeclared(Done) == {}
  {
  }

  lemma GrownWeaker(g0: Cfg, c0: Block, g: Cfg)
    requires Grown(g0, c0, g, {}) && c0 < |g0| <= |g|
    ensures Grown(g0, c0, g, {c0})
  {
  }

  lemma NothingPlaced(lo: nat)
    ensures Placed(Nothing, lo) && CodeSize(Nothing) == 0
  {
  }

  lemma ChoicePlaced(c: Code, lo: nat)
    requires c.Choice? && c.trueBB == lo && c.falseBB == lo + 1 && c.mergeBB == lo + 2 && OrPlaced(c.cond, lo + 3)
    requires Placed(c.thenCode, lo + 3 + OrSize(c.cond))
    requires Placed(c.elseCode, lo + 3 + OrSize(c.cond) + CodeSize(c.thenCode))
    ensures Placed(c, lo) && CodeSize(c) == 3 + OrSize(c.cond) + CodeSize(c.thenCode) + CodeSize(c.elseCode)
  {
  }

  lemma LoopPlaced(c: Code, lo: nat)
    requires c.Loop? && c.testBB == lo && c.condBB == lo + 1 && c.afterBB == lo + 2 && OrPlaced(c.cond, lo + 3)
    requires Placed(c.body, lo + 3 + OrSize(c.cond))
    ensures Placed(c, lo) && CodeSize(c) == 3 + OrSize(c.cond) + CodeSize(c.body)
  {
  }

  lemma OrMorePlaced(c: OrCode, lo: nat)
    requires c.OrMore? && c.falseBB == lo && OrPlaced(c.left, lo + 1) && AndPlaced(c.right, lo + 1 + OrSize(c.left))
    ensures OrPlaced(c, lo) && OrSize(c) == 1 + OrSize(c.left) + AndSize(c.right)
  {
  }

  lemma AtomPlaced(c: Code, lo: nat)
    requires c.Atom?
    ensures Placed(c, lo) && CodeSize(c) == 0
  {
  }

  lemma AllClosed(g0: Cfg, g: Cfg, c: Block)
    requires g0 == [OpenBlock([], None)] && Grown(g0, ENTRY, g, {c})
    ensures c < |g| && (g[c].term.Some? ==> Complete(g))
  {
  }

  lemma NothingOpen(g0: Cfg, g: Cfg, c: Block, g': Cfg)
    requires g0 == [OpenBlock([], None)] && Grown(g0, ENTRY, g, {c}) && Grown(g, c, g', {})
    ensures Complete(g')
  {
    GrownMore(g0, ENTRY, g, c, g', {});
  }

  lemma ThreeBlocks(g0: Cfg, c0: Block, g1: Cfg)
    requires c0 < |g0| && g1 == g0 + [OpenBlock([], None)] + [OpenBlock([], None)] + [OpenBlock([], None)]
    ensures Grown(g0, c0, g1, {c0, |g0|, |g0| + 1, |g0| + 2}) && |g1| == |g0| + 3
    ensures forall b :: |g0| <= b < |g0| + 3 ==> g1[b] == OpenBlock([], None)
  {
  }

  /** While other blocks are worked on the three new blocks stay as they are. */
  lemma ThreeStay(g0: Cfg, c0: Block, g1: Cfg, c: Block, g2: Cfg)
    requires c0 < |g0| && |g1| == |g0| + 3 && forall b :: |g0| <= b < |g0| + 3 ==> g1[b] == OpenBlock([], None)
    requires Grown(g1, c, g2, {}) && c < |g0|
    ensures |g2| >= |g1| && forall b :: |g0| <= b < |g0| + 3 ==> g2[b] == OpenBlock([], None)
  {
  }

  lemma OthersStay(g0: Cfg, g: Cfg, c: Block, g': Cfg)
    requires |g| >= |g0| + 3 && Grown(g, c, g', {})
    ensures |g'| >= |g| && forall b :: |g0| <= b < |g0| + 3 && b != c ==> g'[b] == g[b]
  {
  }

  /** Three new blocks, two of which have been worked on. */
  lemma ThreeGrown(g0: Cfg, c0: Block, g1: Cfg, g2: Cfg, g3: Cfg, g4: Cfg, x: Block, y: Block, z: Block)
    requires c0 < |g0| && x == |g0| && y == |g0| + 1 && z == |g0| + 2 && Grown(g0, c0, g1, {c0, x, y, z})
    requires Grown(g1, c0, g2, {}) && Grown(g2, x, g3, {}) && Grown(g3, y, g4, {})
    ensures Grown(g0, c0, g4, {z}) && Lowering.Extends(g2, g3) && Lowering.Extends(g3, g4) && Lowering.Extends(g2, g4)
  {
    GrownExtends(g2, x, g3, {});
    GrownExtends(g3, y, g4, {});
    ExtendsTrans(g2, g3, g4);
    hide Grown, Lowering.Extends;
    GrownThen(g0, c0, g1, {c0, x, y, z}, c0, g2, {});
    assert ({c0, x, y, z} - {c0}) + {} == {x, y, z};
    GrownThen(g0, c0, g2, {x, y, z}, x, g3, {});
    assert ({x, y, z} - {x}) + {} == {y, z};
    GrownThen(g0, c0, g3, {y, z}, y, g4, {});
    assert ({y, z} - {y}) + {} == {z};
  }

  /** The branches of an if, the first in g1 and the second in g2. */
  ghost predicate BranchesAt(s: Stmt, g1: Cfg, g2: Cfg, c: Code, trueBB: Block, cond: OrCode, test: Name,
      jumps: Option<Jumps>)
    requires s.If?
  {
    && c.Choice? && c.trueBB == trueBB && c.falseBB == trueBB + 1 && c.mergeBB == trueBB + 2
    && c.cond == cond && c.test == test
    && StmtAt(g1, s.thenStmt, c.thenCode, At(c.trueBB, 0), jumps) && GoesTo(g1, c.thenCode, At(c.trueBB, 0), c.mergeBB)
    && (if s.elseStmt.Some? then StmtAt(g2, s.elseStmt.value, c.elseCode, At(c.falseBB, 0), jumps)
        else c.elseCode == Nothing)
    && GoesTo(g2, c.elseCode, At(c.falseBB, 0), c.mergeBB)
  }

  lemma BranchesShape(s: Stmt, g1: Cfg, g2: Cfg, c: Code, trueBB: Block, cond: OrCode, test: Name,
      jumps: Option<Jumps>)
    requires s.If? && BranchesAt(s, g1, g2, c, trueBB, cond, test, jumps)
    ensures c.Choice? && c.trueBB == trueBB && c.falseBB == trueBB + 1 && c.mergeBB == trueBB + 2
    ensures c.cond == cond && c.test == test
  {
    hide StmtAt, GoesTo;
  }

  lemma IfVisited(g0: Cfg, c0: Block, g1: Cfg, g2: Cfg, g3: Cfg, g4: Cfg, s: Stmt, c: Code, p: Point,
      jumps: Option<Jumps>, cond: OrCode, test: Name)
    requires s.If? && c0 < |g0| && BranchesAt(s, g3, g4, c, |g0|, cond, test, jumps)
    requires Grown(g0, c0, g1, {c0, |g0|, |g0| + 1, |g0| + 2}) && Grown(g1, c0, g2, {})
    requires Grown(g2, |g0|, g3, {}) && Grown(g3, |g0| + 1, g4, {})
    requires OrAt(g2, s.cond, cond, p, |g0|, |g0| + 1)
    requires BranchAt(g2, LOrType(s.cond), cond.val, test, |g0|, |g0| + 1, cond.end)
    ensures Grown(g0, c0, g4, {c.mergeBB}) && StmtAt(g4, s, c, p, jumps) && EndOf(c, p) == Falls(At(c.mergeBB, 0))
  {
    hide Grown, OrAt, BranchAt, GoesTo, Lowering.Extends, StmtAt, EndOf;
    var t, f, m := c.trueBB, c.falseBB, c.mergeBB;
    ThreeGrown(g0, c0, g1, g2, g3, g4, t, f, m);
    OrExtends(g2, g4, s.cond, c.cond, p, t, f);
    BranchExtends(g2, g4, LOrType(s.cond), c.cond.val, c.test, t, f, c.cond.end);
    StmtExtends(g3, g4, s.thenStmt, c.thenCode, At(t, 0), jumps);
    GoesExtends(g3, g4, c.thenCode, At(t, 0), m);
    IfAssembled(g4, s, c, p, jumps);
  }

  lemma IfAssembled(g: Cfg, s: Stmt, c: Code, p: Point, jumps: Option<Jumps>)
    requires s.If? && c.Choice? && OrAt(g, s.cond, c.cond, p, c.trueBB, c.falseBB)
    requires BranchAt(g, LOrType(s.cond), c.cond.val, c.test, c.trueBB, c.falseBB, c.cond.end)
    requires StmtAt(g, s.thenStmt, c.thenCode, At(c.trueBB, 0), jumps)
    requires GoesTo(g, c.thenCode, At(c.trueBB, 0), c.mergeBB)
    requires if s.elseStmt.Some? then StmtAt(g, s.elseStmt.value, c.elseCode, At(c.falseBB, 0), jumps)
             else c.elseCode == Nothing
    requires GoesTo(g, c.elseCode, At(c.falseBB, 0), c.mergeBB)
    ensures StmtAt(g, s, c, p, jumps) && EndOf(c, p) == Falls(At(c.mergeBB, 0))
  {
    hide OrAt, BranchAt, GoesTo;
  }

  /** The parts of a loop, its condition in g1 and its body in g2. */
  ghost predicate LoopAt(s: Stmt, g1: Cfg, g2: Cfg, c: Code, testBB: Block)
    requires s.While?
  {
    && c.Loop? && c.testBB == testBB && c.condBB == testBB + 1 && c.afterBB == testBB + 2
    && OrAt(g1, s.cond, c.cond, At(testBB, 0), c.condBB, c.afterBB)
    && BranchAt(g1, LOrType(s.cond), c.cond.val, c.test, c.condBB, c.afterBB, c.cond.end)
    && StmtAt(g2, s.body, c.body, At(c.condBB, 0), Some(Jumps(testBB, c.afterBB)))
    && GoesTo(g2, c.body, At(c.condBB, 0), testBB)
  }

  lemma WhileVisited(g0: Cfg, c0: Block, g1: Cfg, g2: Cfg, g3: Cfg, g4: Cfg, s: Stmt, c: Code, p: Point,
      outer: Option<Jumps>)
    requires s.While? && LoopAt(s, g3, g4, c, |g0|) && c0 < |g0|
    requires Grown(g0, c0, g1, {c0, |g0|, |g0| + 1, |g0| + 2}) && Grown(g1, c0, g2, {})
    requires Grown(g2, c.testBB, g3, {}) && Grown(g3, c.condBB, g4, {}) && Ends(g2, p, Br(c.testBB))
    ensures Grown(g0, c0, g4, {c.afterBB}) && StmtAt(g4, s, c, p, outer) && EndOf(c, p) == Falls(At(c.afterBB, 0))
  {
    hide Grown, OrAt, BranchAt, GoesTo, Lowering.Extends;
    var t, b, a := c.testBB, c.condBB, c.afterBB;
    ThreeGrown(g0, c0, g1, g2, g3, g4, t, b, a);
    EndsExtends(g2, g4, p, Br(t));
    OrExtends(g3, g4, s.cond, c.cond, At(t, 0), b, a);
    BranchExtends(g3, g4, LOrType(s.cond), c.cond.val, c.test, b, a, c.cond.end);
  }

  lemma OrVisited(g0: Cfg, c0: Block, p: Point, g1: Cfg, g2: Cfg, c2: Block, g3: Cfg, g4: Cfg, c4: Block, b: Block,
      l: LOr, left: OrCode, ty: Type, v: Operand, test: Name, zext: Name, t: Block)
    requires b == |g0| && c0 < |g0| && Grown(g0, c0, g1, {c0, b}) && Grown(g1, c0, g2, {c2})
    requires Grown(g2, c2, g3, {}) && Grown(g3, b, g4, {c4})
    requires g1 == g0 + [OpenBlock([], None)] && |g3| == |g2|
    requires OrAt(g2, l, left, p, t, b) && TestAt(g3, ty, v, test, zext, t, b, left.end)
    ensures Grown(g0, c0, g4, {c4}) && OrAt(g4, l, left, p, t, b) && TestAt(g4, ty, v, test, zext, t, b, left.end)
  {
    NewBlockStays(g0, c0, g1, g2, c2, g3, b);
    GrownAround(g0, c0, g1, g2, c2, g3, g4, b, {c4});
    GrownExtends(g2, c2, g3, {});
    GrownExtends(g3, b, g4, {c4});
    OrExtends(g2, g3, l, left, p, t, b);
    OrExtends(g3, g4, l, left, p, t, b);
    TestExtends(g3, g4, ty, v, test, zext, t, b, left.end);
  }

  /** A block created before a sub-condition was visited is as it was created. */
  lemma NewBlockStays(g0: Cfg, c0: Block, g1: Cfg, g2: Cfg, c2: Block, g3: Cfg, b: Block)
    requires g1 == g0 + [OpenBlock([], None)] && b == |g0| && c0 < |g0|
    requires Grown(g1, c0, g2, {c2}) && Grown(g2, c2, g3, {})
    ensures b != c2 && b < |g3| && g3[b] == OpenBlock([], None)
  {
  }

  lemma AndVisited(g0: Cfg, c0: Block, p: Point, g1: Cfg, g2: Cfg, c2: Block, g3: Cfg, g4: Cfg, b: Block, l: LAnd,
      left: AndCode, ty: Type, v: Operand, test: Name, zext: Name, f: Block)
    requires b == |g0| && c0 < |g0| && Grown(g0, c0, g1, {c0, b}) && Grown(g1, c0, g2, {c2})
    requires Grown(g2, c2, g3, {}) && Grown(g3, b, g4, {b})
    requires g1 == g0 + [OpenBlock([], None)] && |g3| == |g2|
    requires AndAt(g2, l, left, p, f) && TestAt(g3, ty, v, test, zext, b, f, left.end)
    ensures Grown(g0, c0, g4, {b}) && AndAt(g4, l, left, p, f) && TestAt(g4, ty, v, test, zext, b, f, left.end)
  {
    NewBlockStays(g0, c0, g1, g2, c2, g3, b);
    GrownAround(g0, c0, g1, g2, c2, g3, g4, b, {b});
    GrownExtends(g2, c2, g3, {});
    GrownExtends(g3, b, g4, {b});
    AndExtends(g2, g3, l, left, p, f);
    AndExtends(g3, g4, l, left, p, f);
    TestExtends(g3, g4, ty, v, test, zext, b, f, left.end);
  }

  /** Visiting a sub-condition and branching, with the new block b still open, and then going on in b. */
  lemma GrownAround(g0: Cfg, c0: Block, g1: Cfg, g2: Cfg, c2: Block, g3: Cfg, g4: Cfg, b: Block, open: set<Block>)
    requires Grown(g0, c0, g1, {c0, b}) && b != c0 && Grown(g1, c0, g2, {c2}) && Grown(g2, c2, g3, {}) && b != c2
    requires Grown(g3, b, g4, open)
    ensures Grown(g0, c0, g4, open)
  {
    GrownThen(g0, c0, g1, {c0, b}, c0, g2, {c2});
    assert ({c0, b} - {c0}) + {c2} == {b, c2};
    GrownThen(g0, c0, g2, {b, c2}, c2, g3, {});
    assert ({b, c2} - {c2}) + {} == {b};
    GrownMore(g0, c0, g3, b, g4, open);
  }

  lemma GrownEnd(g: Cfg, b: Block, t: Terminator)
    requires b < |g| && g[b].term.None?
    ensures Grown(g, b, Terminate(g, b, t), {}) && Ends(Terminate(g, b, t), At(b, |g[b].body|), t)
  {
    GrownRefl(g, b);
    GrownTerminate(g, b, g, {b}, b, t);
    assert {b} - {b} == {};
  }

  /** One more step at the only open block. */
  lemma GrownMore(g0: Cfg, c0: Block, g1: Cfg, c1: Block, g2: Cfg, open: set<Block>)
    requires Grown(g0, c0, g1, {c1}) && Grown(g1, c1, g2, open)
    ensures Grown(g0, c0, g2, open)
  {
    GrownThen(g0, c0, g1, {c1}, c1, g2, open);
    assert ({c1} - {c1}) + open == open;
  }

  lemma GrownExtends(g0: Cfg, c0: Block, g: Cfg, open: set<Block>)
    requires Grown(g0, c0, g, open)
    ensures Extends(g0, g) && |g0| <= |g|
  {
  }

  // ----- Steps of the visitors -----

  lemma NewBlockKnown(t0: Table, c: Block, b: Block, t: Table, vars: nat)
    requires c < |t0.dom| == b && 0 < b && t == t0.(dom := t0.dom + [t0.dom[c] + {b}])
    ensures Went(t0, c, t, c, vars, {}) && MayJump(t.dom, c, b)
  {
    assert t.dom[..|t0.dom|] == t0.dom;
  }

  lemma DomSelf(g: Cfg, dom: seq<set<Block>>, b: Block)
    requires DomOk(g, dom) && b < |g|
    ensures |dom| == |g| && b in dom[b]
  {
  }

  lemma AddWent(t: Table, names: nat, ins: Instr, b: Block, i: nat, vars: nat)
    requires Addable(t, b, names, ins) && b < |t.dom| && b in t.dom[b]
    requires !ins.Store? && !ins.Alloca? ==> ins.dst.n >= vars
    ensures var t' := Add(t, ins, b, i);
            && Went(t, b, t', b, vars, if ins.Alloca? then {ins.dst.n} else {})
            && (!ins.Store? && !ins.Alloca? ==> UsableIn(t', b, Ref(ins.dst)))
            && (ins.Alloca? ==> ins.dst in t'.slots && Known(t', b, Ref(ins.dst)))
            && if ins.Store? then ins.ptr.Ref? && ins.ptr.name !in t.stored ==> KnownStored(t', b, ins.ptr.name)
               else t'.stored == t.stored
  {
  }

  lemma TableStays(g: Cfg, t: Table, b: Block, vars: nat)
    requires DomOk(g, t.dom) && b < |g|
    ensures Went(t, b, t, b, vars, {})
  {
    WentNowhere(t, b, vars);
    hide Went;
  }

  lemma VarKnown(t: Table, b: Block, sc: set<nat>, x: nat)
    requires ScopeIn(t, b, sc) && x in sc
    ensures SlotIn(t, b, x) && (t.strict ==> KnownStored(t, b, Slot(x)))
  {
  }

  lemma LoadAddable(t: Table, b: Block, names: nat, d: Name, x: nat)
    requires SlotIn(t, b, x) && (t.strict ==> KnownStored(t, b, Slot(x))) && d.Tmp? && d !in t.loc && d !in t.slots
    requires d.n < names
    ensures Addable(t, b, names, Load(d, Ref(Slot(x))))
  {
  }

  lemma OpAddable(t: Table, b: Block, names: nat, d: Name, code: nat, args: seq<Operand>)
    requires d.Tmp? && d !in t.loc && d !in t.slots && d.n < names && forall v :: v in args ==> UsableIn(t, b, v)
    ensures Addable(t, b, names, Op(d, code, args))
  {
  }

  lemma CallAddable(t: Table, b: Block, names: nat, d: Name, f: nat, args: seq<Operand>)
    requires d.Tmp? && d !in t.loc && d !in t.slots && d.n < names && forall v :: v in args ==> UsableIn(t, b, v)
    ensures Addable(t, b, names, Call(d, f, args))
  {
  }

  /** A step that declares nothing. */
  lemma WentAfter(t0: Table, c0: Block, t1: Table, c1: Block, t2: Table, c2: Block, vars: nat, decl: set<nat>)
    requires Went(t0, c0, t1, c1, vars, decl) && Went(t1, c1, t2, c2, vars, {})
    ensures Went(t0, c0, t2, c2, vars, decl)
  {
    hide Went;
    WentThen(t0, c0, t1, c1, t2, c2, vars, decl, {});
    assert decl + {} == decl;
  }

  lemma PlainUsable(t: Table, b: Block, v: Operand)
    requires !v.Ref?
    ensures UsableIn(t, b, v)
  {
  }

  lemma TestBuilt(g0: Cfg, c: Block, g1: Cfg, g2: Cfg, g3: Cfg, ty: Type, v: Operand, test: Name, zext: Name, t: Block,
      f: Block, p: Point)
    requires Grown(g0, c, g1, {c}) && Grown(g1, c, g2, {c}) && Grown(g2, c, g3, {}) && !ty.I1?
    requires Has(g1, p, Op(test, NotEqual(ty), [v, Zero(ty)])) && Has(g2, After(p), Op(zext, ZEXT, [Ref(test)]))
    requires Ends(g3, After(After(p)), CondBr(Ref(test), t, f))
    ensures Grown(g0, c, g3, {}) && TestAt(g3, ty, v, test, zext, t, f, p)
  {
    hide Grown, Has, Ends, Lowering.Extends;
    GrownMore(g0, c, g1, c, g2, {c});
    GrownMore(g0, c, g2, c, g3, {});
    GrownExtends(g1, c, g2, {c});
    GrownExtends(g2, c, g3, {});
    HasExtends(g1, g2, p, Op(test, NotEqual(ty), [v, Zero(ty)]));
    HasExtends(g2, g3, p, Op(test, NotEqual(ty), [v, Zero(ty)]));
    HasExtends(g2, g3, After(p), Op(zext, ZEXT, [Ref(test)]));
  }

  /** Going on in block b, created when c0 was the block to insert into, after a sub-condition. */
  lemma WentAround(t0: Table, c0: Block, t1: Table, t2: Table, c2: Block, t3: Table, b: Block, vars: nat)
    requires Went(t0, c0, t1, c0, vars, {}) && Went(t1, c0, t2, c2, vars, {}) && Went(t2, c2, t3, c2, vars, {})
    requires b < |t1.dom| && t1.dom[b] == t1.dom[c0] + {b}
    ensures Went(t0, c0, t3, b, vars, {}) && b < |t3.dom|
  {
    WentAfter(t1, c0, t2, c2, t3, c2, vars, {});
    WentAfter(t0, c0, t1, c0, t3, c2, vars, {});
    GrowsDom(t1, t3, b);
    hide Grows;
    assert t0.dom[c0] <= t1.dom[c0] <= t3.dom[b];
  }

  lemma UnaryVisited(g0: Cfg, c: Block, g1: Cfg, g2: Cfg, e: Exp, p: Point, a: Operand, q: Point, d: Name)
    requires e.Unary? && Grown(g0, c, g1, {c}) && Grown(g1, c, g2, {c})
    requires ExpAt(g1, e.arg, p, a, q) && Has(g2, q, Op(d, e.code, [a]))
    ensures Grown(g0, c, g2, {c}) && ExpAt(g2, e, p, Ref(d), After(q))
  {
    GrownMore(g0, c, g1, c, g2, {c});
    GrownExtends(g1, c, g2, {c});
    hide Grown, Has, Lowering.Extends;
    ExpExtends(g1, g2, e.arg, p, a, q);
  }

  lemma BinaryVisited(g0: Cfg, c: Block, g1: Cfg, g2: Cfg, g3: Cfg, e: Exp, p: Point, a: Operand, q: Point, b: Operand,
      q': Point, d: Name)
    requires e.Binary? && Grown(g0, c, g1, {c}) && Grown(g1, c, g2, {c}) && Grown(g2, c, g3, {c})
    requires ExpAt(g1, e.left, p, a, q) && ExpAt(g2, e.right, q, b, q') && Has(g3, q', Op(d, e.code, [a, b]))
    ensures Grown(g0, c, g3, {c}) && ExpAt(g3, e, p, Ref(d), After(q'))
  {
    GrownMore(g0, c, g1, c, g2, {c});
    GrownMore(g0, c, g2, c, g3, {c});
    GrownExtends(g1, c, g2, {c});
    GrownExtends(g2, c, g3, {c});
    hide Grown, Has, Lowering.Extends;
    ExpExtends(g1, g2, e.left, p, a, q);
    ExpExtends(g2, g3, e.left, p, a, q);
    ExpExtends(g2, g3, e.right, q, b, q');
  }

  // ----- Variables and branches -----

  /** What a statement needs of the table: the variables in scope, and its own declarations still to come. */
  ghost predicate Ready(t: Table, b: Block, sc: set<nat>, decl: set<nat>, vars: nat) {
    ScopeIn(t, b, sc) && Unused(t, decl, vars)
  }

  function ElseDeclares(stmt: Option<Stmt>): set<nat> {
    if stmt.Some? then Declared(stmt.value) else {}
  }

  lemma ReadyScope(t: Table, b: Block, sc: set<nat>, decl: set<nat>, vars: nat)
    requires Ready(t, b, sc, decl, vars)
    ensures ScopeIn(t, b, sc) && Unused(t, decl, vars)
  {
  }

  lemma ReadySplit(t: Table, b: Block, sc: set<nat>, d1: set<nat>, d2: set<nat>, vars: nat)
    requires Ready(t, b, sc, d1 + d2, vars)
    ensures Ready(t, b, sc, d1, vars) && Ready(t, b, sc, d2, vars)
  {
    hide ScopeIn;
  }

  lemma ReadyStill(t0: Table, c0: Block, t1: Table, c1: Block, vars: nat, d1: set<nat>, sc: set<nat>, d2: set<nat>)
    requires Went(t0, c0, t1, c1, vars, d1) && Ready(t0, c0, sc, d2, vars) && d1 !! d2
    ensures Ready(t1, c1, sc, d2, vars)
  {
    ScopeStill(t0, c0, t1, c1, vars, d1, sc);
    UnusedStill(t0, c0, t1, c1, vars, d1, d2);
    hide ScopeIn, Went, Unused;
  }

  lemma ReadyNext(t0: Table, c0: Block, t1: Table, c1: Block, vars: nat, sc: set<nat>, sc': set<nat>, d1: set<nat>,
      d2: set<nat>)
    requires Went(t0, c0, t1, c1, vars, d1) && Ready(t0, c0, sc, d2, vars) && d1 !! d2 && ScopeIn(t1, c1, sc')
    ensures Ready(t1, c1, sc', d2, vars)
  {
    UnusedStill(t0, c0, t1, c1, vars, d1, d2);
    hide ScopeIn, Went, Unused;
  }

  /** Three blocks created with c0 as the block to insert into. */
  ghost predicate Siblings(dom: seq<set<Block>>, c0: Block, x: Block) {
    && x + 2 < |dom| && c0 < |dom|
    && dom[x] == dom[c0] + {x} && dom[x + 1] == dom[c0] + {x + 1} && dom[x + 2] == dom[c0] + {x + 2}
  }

  lemma ThreeSiblings(t1: Table, t2: Table, t3: Table, c: Block, x: Block, vars: nat)
    requires Went(t1, c, t2, c, vars, {}) && Went(t2, c, t3, c, vars, {})
    requires |t1.dom| == x + 1 && |t2.dom| == x + 2 && |t3.dom| == x + 3 && c < x
    requires t1.dom[x] == t1.dom[c] + {x} && t2.dom[x + 1] == t2.dom[c] + {x + 1}
    requires t3.dom[x + 2] == t3.dom[c] + {x + 2}
    ensures Siblings(t3.dom, c, x)
  {
    GrowsDom(t1, t2, c);
    GrowsDom(t1, t2, x);
    GrowsDom(t2, t3, c);
    GrowsDom(t2, t3, x);
    GrowsDom(t2, t3, x + 1);
    hide Grows;
  }

  lemma SiblingsStill(t0: Table, t1: Table, c0: Block, x: Block)
    requires Grows(t0, t1) && Siblings(t0.dom, c0, x)
    ensures Siblings(t1.dom, c0, x)
  {
    GrowsDom(t0, t1, c0);
    GrowsDom(t0, t1, x);
    GrowsDom(t0, t1, x + 1);
    GrowsDom(t0, t1, x + 2);
    hide Grows;
  }

  lemma SiblingJumps(t: Table, c0: Block, b: Block, x: Block)
    requires Siblings(t.dom, c0, x) && b < |t.dom| && t.dom[c0] <= t.dom[b] && ENTRY < x
    ensures MayJump(t.dom, b, x) && MayJump(t.dom, b, x + 1) && MayJump(t.dom, b, x + 2)
  {
  }

  lemma FirstJumps(t: Table, c0: Block, x: Block)
    requires Siblings(t.dom, c0, x) && ENTRY < x
    ensures MayJump(t.dom, c0, x) && MayJump(t.dom, c0, x + 1) && MayJump(t.dom, c0, x + 2)
  {
  }

  /** On to one of the three blocks. */
  lemma WentTo(t0: Table, c0: Block, t1: Table, c1: Block, b: Block, x: Block, vars: nat, decl: set<nat>)
    requires Went(t0, c0, t1, c1, vars, decl) && Siblings(t0.dom, c0, x) && x <= b <= x + 2
    ensures Went(t0, c0, t1, b, vars, decl)
  {
    GrowsDom(t0, t1, b);
    hide Grows;
  }

  lemma NextBranch(t0: Table, c0: Block, t1: Table, c1: Block, b: Block, x: Block, vars: nat, decl: set<nat>,
      sc: set<nat>, rest: set<nat>)
    requires Went(t0, c0, t1, c1, vars, decl) && Siblings(t0.dom, c0, x) && x <= b <= x + 2 && ENTRY < x
    requires Ready(t0, c0, sc, rest, vars) && decl !! rest
    ensures Went(t0, c0, t1, b, vars, decl) && Ready(t1, b, sc, rest, vars) && b < |t1.dom|
    ensures MayJump(t1.dom, b, x) && MayJump(t1.dom, b, x + 1) && MayJump(t1.dom, b, x + 2)
  {
    hide Ready, Grows, MayJump;
    WentTo(t0, c0, t1, c1, b, x, vars, decl);
    ReadyStill(t0, c0, t1, b, vars, decl, sc, rest);
    SiblingsStill(t0, t1, c0, x);
    SiblingJumps(t1, c0, b, x);
  }

  /** Back at the block in which a condition began, to go on in its targets. */
  lemma WentBack(t0: Table, c0: Block, t1: Table, c1: Block, x: Block, vars: nat)
    requires Went(t0, c0, t1, c1, vars, {}) && Siblings(t0.dom, c0, x)
    ensures Went(t0, c0, t1, c0, vars, {}) && Siblings(t1.dom, c0, x)
  {
    GrowsDom(t0, t1, c0);
    SiblingsStill(t0, t1, c0, x);
    hide Grows;
  }

  /** A step that declares nothing, before one that does. */
  lemma WentBefore(t0: Table, c0: Block, t1: Table, c1: Block, t2: Table, c2: Block, vars: nat, decl: set<nat>)
    requires Went(t0, c0, t1, c1, vars, {}) && Went(t1, c1, t2, c2, vars, decl)
    ensures Went(t0, c0, t2, c2, vars, decl)
  {
    hide Went;
    WentThen(t0, c0, t1, c1, t2, c2, vars, {}, decl);
    assert {} + decl == decl;
  }

  lemma AllocaAddable(t: Table, b: Block, names: nat, x: nat, vars: nat)
    requires Unused(t, {x}, vars) && vars <= names
    ensures Addable(t, b, names, Alloca(Slot(x)))
  {
    assert x in {x};
  }

  lemma StoreAddable(t: Table, b: Block, names: nat, x: nat, v: Operand)
    requires SlotIn(t, b, x) && UsableIn(t, b, v)
    requires !v.Global? && if v.Arg? then b == ENTRY && v.i == x else x !in t.arrays
    ensures Addable(t, b, names, Store(Ref(Slot(x)), v))
  {
  }

  lemma ExpPlain(g: Cfg, e: Exp, p: Point, v: Operand, end: Point)
    requires ExpAt(g, e, p, v, end)
    ensures !v.Arg? && !v.Global?
  {
  }

  lemma StorableStill(t0: Table, b: Block, t1: Table, vars: nat, x: nat)
    requires Went(t0, b, t1, b, vars, {}) && Storable(t0, b, x) && t1.stored == t0.stored
    ensures Storable(t1, b, x) && SlotIn(t1, b, x)
  {
    SlotStill(t0, b, t1, b, vars, {}, x);
    hide SlotIn, KnownStored;
  }

  lemma NowStored(t0: Table, b: Block, t1: Table, vars: nat, x: nat)
    requires Went(t0, b, t1, b, vars, {}) && Storable(t0, b, x)
    requires Slot(x) !in t0.stored ==> KnownStored(t1, b, Slot(x))
    ensures ScopeIn(t1, b, {x})
  {
    SlotStill(t0, b, t1, b, vars, {}, x);
    SlotScope(t1, b, x);
    hide SlotIn, KnownStored, ScopeIn;
  }

  /** A variable with its alloca only. */
  lemma NewSlot(t0: Table, b: Block, t1: Table, x: nat)
    requires Slot(x) in t1.slots && Known(t1, b, Ref(Slot(x))) && t1.stored == t0.stored && Slot(x) !in t0.stored
    ensures Storable(t1, b, x) && SlotIn(t1, b, x) && (!t1.strict ==> ScopeIn(t1, b, {x}))
  {
  }

  lemma ScopeStorable(t: Table, b: Block, sc: set<nat>, x: nat)
    requires ScopeIn(t, b, sc) && x in sc
    ensures Storable(t, b, x)
  {
    assert SlotIn(t, b, x);
    hide SlotIn;
  }

  lemma SlotScope(t: Table, b: Block, x: nat)
    requires SlotIn(t, b, x) && (t.strict ==> KnownStored(t, b, Slot(x)))
    ensures ScopeIn(t, b, {x})
  {
  }

  lemma ScopeMore(t: Table, b: Block, sc: set<nat>, x: nat)
    requires ScopeIn(t, b, sc) && ScopeIn(t, b, {x})
    ensures ScopeIn(t, b, sc + {x})
  {
  }

  lemma NothingDeclared(t: Table, b: Block, sc: set<nat>, s: Stmt)
    requires ScopeIn(t, b, sc) && !s.Declare?
    ensures ScopeIn(t, b, sc + Declares(s))
  {
    assert sc + Declares(s) == sc;
  }

  lemma NoScope(t: Table, b: Block)
    ensures ScopeIn(t, b, Below(0))
  {
  }

  lemma NextUnused(t0: Table, t1: Table, i: nat, vars: nat)
    requires Went(t0, ENTRY, t1, ENTRY, vars, Below(i)) && t0.loc == map[] && i < vars
    ensures Unused(t1, {i}, vars)
  {
    hide Grows;
  }

  lemma BodyReady(t0: Table, t1: Table, n: nat, decl: set<nat>, vars: nat)
    requires Went(t0, ENTRY, t1, ENTRY, vars, Below(n)) && t0.loc == map[] && ScopeIn(t1, ENTRY, Below(n))
    requires forall x :: x in decl ==> n <= x < vars
    ensures Ready(t1, ENTRY, Below(n), decl, vars)
  {
    hide Grows, ScopeIn;
  }

  lemma MoreParams(g: Cfg, g': Cfg, i: nat)
    requires ParamsAt(g, i) && Lowering.Extends(g, g')
    requires Has(g', Start(i), Alloca(Slot(i))) && Has(g', After(Start(i)), Store(Ref(Slot(i)), Arg(i)))
    ensures ParamsAt(g', i + 1)
  {
    ParamsExtend(g, g', i);
    hide Has;
  }

  lemma ParamsExtend(g: Cfg, g': Cfg, n: nat)
    requires ParamsAt(g, n) && Lowering.Extends(g, g')
    ensures ParamsAt(g', n)
  {
    hide Has, Lowering.Extends;
    forall i: nat {:trigger Slot(i)} | i < n
      ensures Has(g', At(ENTRY, 2 * i), Alloca(Slot(i))) && Has(g', At(ENTRY, 2 * i + 1), Store(Ref(Slot(i)), Arg(i)))
    {
      HasExtends(g, g', At(ENTRY, 2 * i), Alloca(Slot(i)));
      HasExtends(g, g', At(ENTRY, 2 * i + 1), Store(Ref(Slot(i)), Arg(i)));
    }
  }

  lemma EndsTerminated(g0: Cfg, b: Block, g: Cfg)
    requires Grown(g0, b, g, {}) && b < |g0|
    ensures b < |g| && g[b].term.Some?
  {
  }
}
