/** The state of Mem2Reg's renaming walk and what each of its steps does to it. */
module Renaming {
  import opened ControlFlow
  import opened DominatorTree
  import opened Ir
  import opened Promotion
  import opened PromotionMeaning

  // ----- Replacing uses -----

  function Replace(l: Name, v: Operand): Operand -> Operand {
    (o: Operand) => if o == Ref(l) then v else o
  }

  function MapPairs(f: Operand -> Operand, pairs: seq<(Operand, Block)>): (r: seq<(Operand, Block)>)
    ensures |r| == |pairs| && forall i :: 0 <= i < |pairs| ==> r[i] == (f(pairs[i].0), pairs[i].1)
  {
    seq(|pairs|, i requires 0 <= i < |pairs| => (f(pairs[i].0), pairs[i].1))
  }

  function MapPhis(f: Operand -> Operand, phis: seq<Phi>): (r: seq<Phi>)
    ensures |r| == |phis| && forall i :: 0 <= i < |phis| ==> r[i] == Phi(phis[i].dst, MapPairs(f, phis[i].pairs))
  {
    seq(|phis|, i requires 0 <= i < |phis| => Phi(phis[i].dst, MapPairs(f, phis[i].pairs)))
  }

  /** The effect of `replace_all_use_with` on a function. */
  function MapBlocks(f: Operand -> Operand, blocks: seq<BasicBlock>): (r: seq<BasicBlock>)
    ensures |r| == |blocks|
    ensures forall b :: 0 <= b < |blocks| ==>
              r[b] == BasicBlock(MapPhis(f, blocks[b].phis), MapBody(f, blocks[b].body), MapTerm(f, blocks[b].term))
  {
    seq(|blocks|, b requires 0 <= b < |blocks| =>
      BasicBlock(MapPhis(f, blocks[b].phis), MapBody(f, blocks[b].body), MapTerm(f, blocks[b].term)))
  }

  /** First f, then the replacement of l by v. */
  ghost function Then(f: Operand -> Operand, l: Name, v: Operand): Operand -> Operand {
    (o: Operand) => if f(o) == Ref(l) then v else f(o)
  }

  lemma MapInstrThen(f: Operand -> Operand, l: Name, v: Operand, ins: Instr)
    ensures MapInstr(Replace(l, v), MapInstr(f, ins)) == MapInstr(Then(f, l, v), ins)
  {
    hide Then, Replace;
    forall o ensures Replace(l, v)(f(o)) == Then(f, l, v)(o) { ThenOne(f, l, v, o); }
    match ins
    case Gep(d, b, idxs) => MapAllThen(f, l, v, idxs);
    case Op(d, c, args) => MapAllThen(f, l, v, args);
    case Call(d, c, args) => MapAllThen(f, l, v, args);
    case _ =>
  }

  lemma ThenOne(f: Operand -> Operand, l: Name, v: Operand, o: Operand)
    ensures Replace(l, v)(f(o)) == Then(f, l, v)(o)
  {
  }

  lemma MapAllThen(f: Operand -> Operand, l: Name, v: Operand, os: seq<Operand>)
    ensures MapAll(Replace(l, v), MapAll(f, os)) == MapAll(Then(f, l, v), os)
  {
  }

  lemma MapBodyThen(f: Operand -> Operand, l: Name, v: Operand, body: seq<Instr>)
    ensures MapBody(Replace(l, v), MapBody(f, body)) == MapBody(Then(f, l, v), body)
  {
    forall i | 0 <= i < |body|
      ensures MapBody(Replace(l, v), MapBody(f, body))[i] == MapBody(Then(f, l, v), body)[i]
    {
      MapInstrThen(f, l, v, body[i]);
    }
  }

  /** Deleting stores and replacing uses commute if the replacement leaves store addresses alone. */
  lemma {:induction false} DropStoresMap(allocas: set<Name>, f: Operand -> Operand, body: seq<Instr>)
    requires forall i :: 0 <= i < |body| ==>
             (IsSlotStore(allocas, MapInstr(f, body[i])) <==> IsSlotStore(allocas, body[i]))
    ensures MapBody(f, DropStores(allocas, body)) == DropStores(allocas, MapBody(f, body))
  {
    if body != [] {
      DropStoresMap(allocas, f, body[1..]);
      assert MapBody(f, body)[1..] == MapBody(f, body[1..]);
      var head := if IsSlotStore(allocas, body[0]) then [] else [body[0]];
      assert MapBody(f, head + DropStores(allocas, body[1..]))
        == MapBody(f, head) + MapBody(f, DropStores(allocas, body[1..]));
    }
  }

  // ----- The program during the walk -----

  ghost predicate Resolvable(cx: Context, d: Name)
    requires SourceOk(cx)
  {
    IsLoad(cx, d) && ReachLoad(cx, d).Some?
  }

  /** Uses of the loads in `done` have been replaced, and no others. */
  ghost predicate IsPart(cx: Context, done: set<Name>, f: Operand -> Operand)
    requires SourceOk(cx)
  {
    && (forall d :: d in done ==> Resolvable(cx, d))
    && forall o :: f(o) == if o.Ref? && o.name in done then Resolve(cx, o) else o
  }

  /** The loads in `done`: those of entered blocks, and of the first i instructions of b. */
  ghost predicate DoneUpTo(cx: Context, done: set<Name>, entered: set<Block>, b: Block, i: nat)
    requires SourceOk(cx)
  {
    forall d {:trigger Resolvable(cx, d)} :: Resolvable(cx, d) ==>
      (d in done <==> cx.loc[d].b in entered || (cx.loc[d].b == b && cx.loc[d].i < i))
  }

  ghost predicate View(cx: Context, f: Operand -> Operand, blocks: seq<BasicBlock>, finished: set<Block>) {
    && |blocks| == |cx.blocks|
    && forall b {:trigger ViewBlock(cx, f, blocks, finished, b)} :: 0 <= b < |blocks| ==>
      ViewBlock(cx, f, blocks, finished, b)
  }

  ghost predicate ViewBlock(cx: Context, f: Operand -> Operand, blocks: seq<BasicBlock>, finished: set<Block>, b: Block)
    requires b < |blocks| == |cx.blocks|
  {
    && blocks[b].term == MapTerm(f, cx.blocks[b].term)
    && blocks[b].body == if b in finished then Promoted(cx.allocas, f, cx.blocks[b].body)
      else MapBody(f, cx.blocks[b].body)
  }

  /** Addresses of loads and stores are never replaced. */
  lemma PointerStays(cx: Context, done: set<Name>, f: Operand -> Operand, b: Block, i: nat)
    requires SourceOk(cx) && IsPart(cx, done, f) && Accesses(cx, b, i)
    ensures f(Body(cx, b)[i].ptr) == Body(cx, b)[i].ptr
  {
    assert PointerOk(cx, Body(cx, b)[i].ptr);
  }

  /** Replacing one more load. */
  lemma PartThen(cx: Context, done: set<Name>, f: Operand -> Operand, l: Name)
    requires SourceOk(cx) && IsPart(cx, done, f) && Resolvable(cx, l) && l !in done
    ensures IsPart(cx, done + {l}, Then(f, l, Resolve(cx, Ref(l))))
  {
    var v := Resolve(cx, Ref(l));
    forall o
      ensures Then(f, l, v)(o) == if o.Ref? && o.name in done + {l} then Resolve(cx, o) else o
    {
      if o.Ref? && o.name in done {
        ResolveFinal(cx, o);
      }
    }
  }

  lemma ViewThen(cx: Context, done: set<Name>, f: Operand -> Operand, l: Name, blocks: seq<BasicBlock>,
      finished: set<Block>)
    requires SourceOk(cx) && IsPart(cx, done, f) && Resolvable(cx, l) && l !in done
    requires View(cx, f, blocks, finished)
    ensures View(cx, Then(f, l, Resolve(cx, Ref(l))), MapBlocks(Replace(l, Resolve(cx, Ref(l))), blocks), finished)
  {
    hide SourceOk, IsPart, Resolvable, Promoted;
    var v := Resolve(cx, Ref(l));
    var f' := Then(f, l, v);
    var blocks' := MapBlocks(Replace(l, v), blocks);
    forall b | 0 <= b < |blocks'|
      ensures ViewBlock(cx, f', blocks', finished, b)
    {
      assert ViewBlock(cx, f, blocks, finished, b);
      MapBodyThen(f, l, v, cx.blocks[b].body);
      if b in finished {
        FinishedThen(cx, done, f, l, b);
      }
    }
  }

  lemma FinishedThen(cx: Context, done: set<Name>, f: Operand -> Operand, l: Name, b: Block)
    requires SourceOk(cx) && IsPart(cx, done, f) && Resolvable(cx, l) && l !in done && b < |cx.blocks|
    ensures var v := Resolve(cx, Ref(l));
            MapBody(Replace(l, v), Promoted(cx.allocas, f, cx.blocks[b].body))
              == Promoted(cx.allocas, Then(f, l, v), cx.blocks[b].body)
  {
    var v := Resolve(cx, Ref(l));
    var body := cx.blocks[b].body;
    var mapped := MapBody(f, body);
    forall i | 0 <= i < |mapped|
      ensures IsSlotStore(cx.allocas, MapInstr(Replace(l, v), mapped[i])) <==> IsSlotStore(cx.allocas, mapped[i])
    {
      StoreStays(cx, done, f, l, b, i);
    }
    DropStoresMap(cx.allocas, Replace(l, v), mapped);
    MapBodyThen(f, l, v, body);
  }

  lemma StoreStays(cx: Context, done: set<Name>, f: Operand -> Operand, l: Name, b: Block, i: nat)
    requires SourceOk(cx) && IsPart(cx, done, f) && Resolvable(cx, l) && l !in done && i < |Body(cx, b)|
    ensures var ins := MapInstr(f, Body(cx, b)[i]);
            IsSlotStore(cx.allocas, MapInstr(Replace(l, Resolve(cx, Ref(l))), ins)) <==> IsSlotStore(cx.allocas, ins)
  {
    var v := Resolve(cx, Ref(l));
    var ins := Body(cx, b)[i];
    if ins.Store? {
      assert Accesses(cx, b, i);
      PointerStays(cx, done, f, b, i);
      PartThen(cx, done, f, l);
      PointerStays(cx, done + {l}, Then(f, l, v), b, i);
    }
  }

  /** An operand at (b, i) is already what it resolves to, because the loads it may name lie in
      blocks entered earlier or earlier in b. */
  lemma OperandSettled(cx: Context, done: set<Name>, f: Operand -> Operand, entered: set<Block>, b: Block, i: nat,
      o: Operand)
    requires SourceOk(cx) && IsPart(cx, done, f) && DoneUpTo(cx, done, entered, b, i)
    requires b in cx.t && SourceOperandOk(cx, b, i, o)
    requires forall c :: OnChain(cx.id, cx.t, c, b) && c != b ==> c in entered
    ensures f(o) == Resolve(cx, o)
  {
    if o.Ref? && Resolvable(cx, o.name) {
      assert o.name in done;
    }
  }

  // ----- Value stacks -----

  type Stacks = map<Name, seq<Operand>>

  function Get(vs: Stacks, x: Name): seq<Operand> {
    if x in vs then vs[x] else []
  }

  /** `o` is the top of x's stack, or the stack is empty. */
  ghost predicate TopIs(vs: Stacks, x: Name, o: Option<Operand>) {
    var s := Get(vs, x);
    if o.None? then s == [] else s != [] && s[|s| - 1] == o.value
  }

  /** What reaches the start of b before its phis, resolved. */
  ghost function Inherited(cx: Context, b: Block, x: Name): Option<Operand>
    requires SourceOk(cx) && b in cx.t
  {
    if b == ENTRY then None else OutOperand(cx, cx.t[b], x)
  }

  /** What reaches position i of b, resolved. */
  ghost function TopAt(cx: Context, b: Block, i: nat, x: Name): Option<Operand>
    requires SourceOk(cx) && b in cx.t && i <= |Body(cx, b)|
  {
    var o := ReachAt(cx, b, i, x);
    if o.Some? then Some(Resolve(cx, o.value)) else None
  }

  ghost predicate StacksInherit(cx: Context, vs: Stacks, b: Block)
    requires SourceOk(cx) && b in cx.t
  {
    forall x :: x in cx.allocas ==> TopIs(vs, x, Inherited(cx, b, x))
  }

  ghost predicate StacksAt(cx: Context, vs: Stacks, b: Block, i: nat)
    requires SourceOk(cx) && b in cx.t && i <= |Body(cx, b)|
  {
    forall x :: x in cx.allocas ==> TopIs(vs, x, TopAt(cx, b, i, x))
  }

  /** What the first k phis push for x. */
  function PhiPushes(dsts: seq<Name>, k: nat, x: Name): seq<Operand>
    requires k <= |dsts|
  {
    if k == 0 then []
    else PhiPushes(dsts, k - 1, x) +
         (if dsts[k - 1].PhiName? && dsts[k - 1].slot == x then [Ref(dsts[k - 1])] else [])
  }

  /** What the first i instructions push for x. */
  ghost function BodyPushes(cx: Context, b: Block, i: nat, x: Name): seq<Operand>
    requires SourceOk(cx) && i <= |Body(cx, b)|
  {
    if i == 0 then []
    else
      var ins := Body(cx, b)[i - 1];
      BodyPushes(cx, b, i - 1, x) + (if ins.Store? && ins.ptr == Ref(x) then [Resolve(cx, ins.val)] else [])
  }

  /** The stacks are those of `base` with the pushes of k phis and i instructions on top. */
  ghost predicate Pushed(cx: Context, base: Stacks, vs: Stacks, dsts: seq<Name>, b: Block, k: nat, i: nat)
    requires SourceOk(cx) && i <= |Body(cx, b)| && k <= |dsts|
  {
    forall x :: x in cx.allocas ==> Get(vs, x) == Get(base, x) + PhiPushes(dsts, k, x) + BodyPushes(cx, b, i, x)
  }

  /** The phis of a block, by name: one for each variable it was given one for. */
  ghost predicate DstsOk(cx: Context, dsts: seq<seq<Name>>) {
    && |dsts| == |cx.blocks|
    && forall b {:trigger BlockDstsOk(cx, dsts[b], b)} :: 0 <= b < |dsts| ==> BlockDstsOk(cx, dsts[b], b)
  }

  ghost predicate BlockDstsOk(cx: Context, d: seq<Name>, b: Block) {
    && (forall k :: 0 <= k < |d| ==>
      d[k].PhiName? && d[k].block == b && d[k].slot in cx.allocas && HasPhi(cx, b, d[k].slot))
    && (forall x :: HasPhi(cx, b, x) ==> PhiName(b, x) in d)
    && (forall j, k :: 0 <= j < k < |d| ==> d[j] != d[k])
  }

  lemma {:induction false} PhiPushesNone(d: seq<Name>, k: nat, x: Name)
    requires k <= |d| && forall j :: 0 <= j < k ==> !(d[j].PhiName? && d[j].slot == x)
    ensures PhiPushes(d, k, x) == []
  {
    if k > 0 { PhiPushesNone(d, k - 1, x); }
  }

  lemma {:induction false} PhiPushesOne(cx: Context, d: seq<Name>, b: Block, k: nat, x: Name)
    requires BlockDstsOk(cx, d, b) && k <= |d| && PhiName(b, x) in d[..k]
    ensures PhiPushes(d, k, x) == [Ref(PhiName(b, x))]
  {
    if d[k - 1] == PhiName(b, x) {
      forall j | 0 <= j < k - 1
        ensures !(d[j].PhiName? && d[j].slot == x)
      {
        assert d[j] != d[k - 1];
      }
      PhiPushesNone(d, k - 1, x);
    } else {
      assert d[..k] == d[..k - 1] + [d[k - 1]];
      PhiPushesOne(cx, d, b, k - 1, x);
    }
  }

  lemma {:induction false} BodyPushesLast(cx: Context, b: Block, i: nat, x: Name)
    requires SourceOk(cx) && i <= |Body(cx, b)|
    ensures var s := BodyPushes(cx, b, i, x);
            var o := LastStore(Body(cx, b), i, x);
            if o.None? then s == [] else s != [] && s[|s| - 1] == Resolve(cx, o.value)
  {
    if i > 0 { BodyPushesLast(cx, b, i - 1, x); }
  }

  /** The pushes put on top exactly what reaches the point. */
  lemma PushedTops(cx: Context, base: Stacks, vs: Stacks, d: seq<Name>, b: Block, i: nat)
    requires SourceOk(cx) && b in cx.t && i <= |Body(cx, b)| && BlockDstsOk(cx, d, b)
    requires StacksInherit(cx, base, b) && Pushed(cx, base, vs, d, b, |d|, i)
    ensures StacksAt(cx, vs, b, i)
  {
    forall x | x in cx.allocas
      ensures TopIs(vs, x, TopAt(cx, b, i, x))
    {
      PushedTop(cx, base, vs, d, b, i, x);
    }
  }

  lemma PhiNameStays(cx: Context, b: Block, x: Name)
    requires SourceOk(cx)
    ensures Resolve(cx, Ref(PhiName(b, x))) == Ref(PhiName(b, x))
  {
  }

  lemma PushedTop(cx: Context, base: Stacks, vs: Stacks, d: seq<Name>, b: Block, i: nat, x: Name)
    requires SourceOk(cx) && b in cx.t && i <= |Body(cx, b)| && BlockDstsOk(cx, d, b)
    requires TopIs(base, x, Inherited(cx, b, x))
    requires Get(vs, x) == Get(base, x) + PhiPushes(d, |d|, x) + BodyPushes(cx, b, i, x)
    ensures TopIs(vs, x, TopAt(cx, b, i, x))
  {
    hide LocOk, UsesOk, PointersOk, BodyPushes, LastStore;
    BodyPushesLast(cx, b, i, x);
    if LastStore(Body(cx, b), i, x).None? {
      assert ReachAt(cx, b, i, x) == ReachIn(cx, b, x);
      if HasPhi(cx, b, x) {
        assert d[..|d|] == d;
        PhiPushesOne(cx, d, b, |d|, x);
        PhiNameStays(cx, b, x);
      } else {
        PhiPushesNone(d, |d|, x);
      }
    }
  }

  // ----- Filling in phi operands -----

  /** The edge p -> b has been filled in: p has been entered, or it is the current block and b one
      of the successors already visited. */
  predicate EdgeDone(entered: set<Block>, cur: Block, filled: set<Block>, p: Block, b: Block) {
    p in entered || (p == cur && b in filled)
  }

  ghost predicate PairsOk(cx: Context, pairs: seq<(Operand, Block)>, b: Block, x: Name,
                          entered: set<Block>, cur: Block, filled: set<Block>)
    requires SourceOk(cx)
  {
    && (forall j :: 0 <= j < |pairs| ==> PairFrom(cx, b, x, pairs[j]))
    && forall p {:trigger Incoming(pairs, p)} :: p in cx.t && Edge(cx.g, p, b) ==>
         Incoming(pairs, p) == if EdgeDone(entered, cur, filled, p, b) then OutOperand(cx, p, x) else None
  }

  ghost predicate PhiView(cx: Context, dsts: seq<seq<Name>>, blocks: seq<BasicBlock>,
                          entered: set<Block>, cur: Block, filled: set<Block>)
    requires SourceOk(cx)
  {
    && |blocks| == |dsts|
    && forall b {:trigger PhiViewBlock(cx, dsts[b], blocks[b].phis, b, entered, cur, filled)} :: 0 <= b < |blocks| ==>
         PhiViewBlock(cx, dsts[b], blocks[b].phis, b, entered, cur, filled)
  }

  ghost predicate PhiViewBlock(cx: Context, d: seq<Name>, phis: seq<Phi>, b: Block,
                               entered: set<Block>, cur: Block, filled: set<Block>)
    requires SourceOk(cx)
  {
    && |phis| == |d|
    && forall k :: 0 <= k < |phis| ==>
         phis[k].dst == d[k] && (d[k].PhiName? ==> PairsOk(cx, phis[k].pairs, b, d[k].slot, entered, cur, filled))
  }

  lemma MapPairsStays(cx: Context, l: Name, b: Block, x: Name, pairs: seq<(Operand, Block)>)
    requires SourceOk(cx) && Resolvable(cx, l)
    requires forall j :: 0 <= j < |pairs| ==> PairFrom(cx, b, x, pairs[j])
    ensures MapPairs(Replace(l, Resolve(cx, Ref(l))), pairs) == pairs
  {
    forall j | 0 <= j < |pairs|
      ensures pairs[j].0 != Ref(l)
    {
      assert PairFrom(cx, b, x, pairs[j]);
      ResolveFinal(cx, ReachOut(cx, pairs[j].1, x).value);
    }
  }

  /** Replacing a load leaves the phi operands alone: they are resolved already. */
  lemma PhiViewThen(cx: Context, dsts: seq<seq<Name>>, blocks: seq<BasicBlock>, entered: set<Block>, l: Name)
    requires SourceOk(cx) && DstsOk(cx, dsts) && PhiView(cx, dsts, blocks, entered, ENTRY, {}) && Resolvable(cx, l)
    ensures PhiView(cx, dsts, MapBlocks(Replace(l, Resolve(cx, Ref(l))), blocks), entered, ENTRY, {})
  {
    var blocks' := MapBlocks(Replace(l, Resolve(cx, Ref(l))), blocks);
    forall b | 0 <= b < |blocks'|
      ensures PhiViewBlock(cx, dsts[b], blocks'[b].phis, b, entered, ENTRY, {})
    {
      assert PhiViewBlock(cx, dsts[b], blocks[b].phis, b, entered, ENTRY, {});
      assert BlockDstsOk(cx, dsts[b], b);
      forall k | 0 <= k < |blocks'[b].phis|
        ensures blocks'[b].phis[k] == blocks[b].phis[k]
      {
        assert dsts[b][k].PhiName?;
        MapPairsStays(cx, l, b, dsts[b][k].slot, blocks[b].phis[k].pairs);
      }
    }
  }

  lemma {:induction false} IncomingAppend(pairs: seq<(Operand, Block)>, v: Operand, q: Block, p: Block)
    ensures Incoming(pairs + [(v, q)], p) ==
            if Incoming(pairs, p).Some? then Incoming(pairs, p) else if p == q then Some(v) else None
  {
    if pairs == [] {
      assert Incoming([(v, q)][1..], p) == None;
    } else {
      assert (pairs + [(v, q)])[1..] == pairs[1..] + [(v, q)];
      IncomingAppend(pairs[1..], v, q, p);
    }
  }

  /** `add_phi_pair_operand` with the top of the variable's stack, if it has one. */
  function AddPair(phi: Phi, vs: Stacks, phi2val: map<Name, Name>, bb: Block): Phi {
    if phi.dst in phi2val then
      var s := Get(vs, phi2val[phi.dst]);
      if s != [] then phi.(pairs := phi.pairs + [(s[|s| - 1], bb)]) else phi
    else phi
  }

  lemma FillPairs(cx: Context, phi: Phi, x: Name, vs: Stacks, phi2val: map<Name, Name>,
                  entered: set<Block>, bb: Block, filled: set<Block>, s: Block)
    requires SourceOk(cx) && bb in cx.t && bb !in entered && Edge(cx.g, bb, s)
    requires phi.dst in phi2val && phi2val[phi.dst] == x
    requires PairsOk(cx, phi.pairs, s, x, entered, bb, filled)
    requires TopIs(vs, x, OutOperand(cx, bb, x))
    ensures PairsOk(cx, AddPair(phi, vs, phi2val, bb).pairs, s, x, entered, bb, filled + {s})
  {
    var st := Get(vs, x);
    if st != [] {
      var v := st[|st| - 1];
      assert PairFrom(cx, s, x, (v, bb));
      forall p
        ensures Incoming(phi.pairs + [(v, bb)], p) ==
                if Incoming(phi.pairs, p).Some? then Incoming(phi.pairs, p) else if p == bb then Some(v) else None
      {
        IncomingAppend(phi.pairs, v, bb, p);
      }
    }
  }

  ghost predicate PhiNames(phi2val: map<Name, Name>, dsts: seq<seq<Name>>) {
    forall b, k :: 0 <= b < |dsts| && 0 <= k < |dsts[b]| && dsts[b][k].PhiName? ==>
      dsts[b][k] in phi2val && phi2val[dsts[b][k]] == dsts[b][k].slot
  }

  function AddPairs(phis: seq<Phi>, vs: Stacks, phi2val: map<Name, Name>, bb: Block): (r: seq<Phi>)
    ensures |r| == |phis| && forall k :: 0 <= k < |phis| ==> r[k] == AddPair(phis[k], vs, phi2val, bb)
  {
    seq(|phis|, k requires 0 <= k < |phis| => AddPair(phis[k], vs, phi2val, bb))
  }

  lemma FillBlock(cx: Context, dsts: seq<seq<Name>>, blocks: seq<BasicBlock>, vs: Stacks, phi2val: map<Name, Name>,
                  entered: set<Block>, bb: Block, filled: set<Block>, s: Block)
    requires SourceOk(cx) && DstsOk(cx, dsts) && PhiNames(phi2val, dsts)
    requires bb in cx.t && bb !in entered && Edge(cx.g, bb, s) && s < |blocks|
    requires PhiView(cx, dsts, blocks, entered, bb, filled)
    requires forall x :: x in cx.allocas ==> TopIs(vs, x, OutOperand(cx, bb, x))
    ensures PhiView(cx, dsts, blocks[s := blocks[s].(phis := AddPairs(blocks[s].phis, vs, phi2val, bb))], entered, bb,
            filled + {s})
  {
    var blocks' := blocks[s := blocks[s].(phis := AddPairs(blocks[s].phis, vs, phi2val, bb))];
    forall b | 0 <= b < |blocks'|
      ensures PhiViewBlock(cx, dsts[b], blocks'[b].phis, b, entered, bb, filled + {s})
    {
      assert PhiViewBlock(cx, dsts[b], blocks[b].phis, b, entered, bb, filled);
      assert BlockDstsOk(cx, dsts[b], b);
      forall k | 0 <= k < |blocks'[b].phis|
        ensures PairsOk(cx, blocks'[b].phis[k].pairs, b, dsts[b][k].slot, entered, bb, filled + {s})
      {
        if b == s {
          FillPairs(cx, blocks[s].phis[k], dsts[s][k].slot, vs, phi2val, entered, bb, filled, s);
        } else {
          PairsOther(cx, blocks[b].phis[k].pairs, b, dsts[b][k].slot, entered, bb, filled, s);
        }
      }
    }
  }

  lemma PairsOther(cx: Context, pairs: seq<(Operand, Block)>, b: Block, x: Name, entered: set<Block>, bb: Block,
      filled: set<Block>, s: Block)
    requires SourceOk(cx) && b != s && PairsOk(cx, pairs, b, x, entered, bb, filled)
    ensures PairsOk(cx, pairs, b, x, entered, bb, filled + {s})
  {
  }

  /** Once every successor has been visited the block counts as entered. */
  lemma FillDone(cx: Context, dsts: seq<seq<Name>>, blocks: seq<BasicBlock>, entered: set<Block>, bb: Block,
      filled: set<Block>)
    requires SourceOk(cx) && DstsOk(cx, dsts) && PhiView(cx, dsts, blocks, entered, bb, filled)
    requires forall s :: Edge(cx.g, bb, s) ==> s in filled
    ensures PhiView(cx, dsts, blocks, entered + {bb}, ENTRY, {})
  {
    forall b | 0 <= b < |blocks|
      ensures PhiViewBlock(cx, dsts[b], blocks[b].phis, b, entered + {bb}, ENTRY, {})
    {
      assert PhiViewBlock(cx, dsts[b], blocks[b].phis, b, entered, bb, filled);
      assert BlockDstsOk(cx, dsts[b], b);
      forall k | 0 <= k < |blocks[b].phis|
        ensures PairsOk(cx, blocks[b].phis[k].pairs, b, dsts[b][k].slot, entered + {bb}, ENTRY, {})
      {
        PairsDone(cx, blocks[b].phis[k].pairs, b, dsts[b][k].slot, entered, bb, filled);
      }
    }
  }

  lemma PairsDone(cx: Context, pairs: seq<(Operand, Block)>, b: Block, x: Name, entered: set<Block>, bb: Block,
      filled: set<Block>)
    requires SourceOk(cx) && PairsOk(cx, pairs, b, x, entered, bb, filled)
    requires forall s :: Edge(cx.g, bb, s) ==> s in filled
    ensures PairsOk(cx, pairs, b, x, entered + {bb}, ENTRY, {})
  {
  }

  lemma FillBegin(cx: Context, dsts: seq<seq<Name>>, blocks: seq<BasicBlock>, entered: set<Block>, bb: Block)
    requires SourceOk(cx) && DstsOk(cx, dsts) && PhiView(cx, dsts, blocks, entered, ENTRY, {})
    ensures PhiView(cx, dsts, blocks, entered, bb, {})
  {
    forall b | 0 <= b < |blocks|
      ensures PhiViewBlock(cx, dsts[b], blocks[b].phis, b, entered, bb, {})
    {
      assert PhiViewBlock(cx, dsts[b], blocks[b].phis, b, entered, ENTRY, {});
    }
  }

  // ----- Popping -----

  ghost function AllPushes(cx: Context, d: seq<Name>, b: Block, x: Name): seq<Operand>
    requires SourceOk(cx)
  {
    PhiPushes(d, |d|, x) + BodyPushes(cx, b, |Body(cx, b)|, x)
  }

  ghost predicate PoppedAt(cx: Context, base: Stacks, vs: Stacks, d: seq<Name>, b: Block, k: nat, i: nat, x: Name)
    requires SourceOk(cx) && k <= |d| && i <= |Body(cx, b)|
  {
    var full := AllPushes(cx, d, b, x);
    var n := |PhiPushes(d, k, x)| + |BodyPushes(cx, b, i, x)|;
    n <= |full| && Get(vs, x) == Get(base, x) + full[..|full| - n]
  }

  /** The pops for the first k phis and i instructions have been made. */
  ghost predicate Popped(cx: Context, base: Stacks, vs: Stacks, d: seq<Name>, b: Block, k: nat, i: nat)
    requires SourceOk(cx) && k <= |d| && i <= |Body(cx, b)|
  {
    forall x {:trigger PoppedAt(cx, base, vs, d, b, k, i, x)} :: x in cx.allocas ==>
      PoppedAt(cx, base, vs, d, b, k, i, x)
  }

  /** `pop_back` on x's stack. */
  function Pop(vs: Stacks, x: Name): Stacks
    requires x in vs && vs[x] != []
  {
    vs[x := vs[x][..|vs[x]| - 1]]
  }

  lemma {:induction false} PhiPushesGrow(d: seq<Name>, j: nat, k: nat, x: Name)
    requires j <= k <= |d|
    ensures |PhiPushes(d, j, x)| <= |PhiPushes(d, k, x)|
  {
    if j < k { PhiPushesGrow(d, j, k - 1, x); }
  }

  lemma {:induction false} BodyPushesGrow(cx: Context, b: Block, j: nat, k: nat, x: Name)
    requires SourceOk(cx) && j <= k <= |Body(cx, b)|
    ensures |BodyPushes(cx, b, j, x)| <= |BodyPushes(cx, b, k, x)|
  {
    if j < k { BodyPushesGrow(cx, b, j, k - 1, x); }
  }

  lemma PopBegin(cx: Context, base: Stacks, vs: Stacks, d: seq<Name>, b: Block)
    requires SourceOk(cx) && Pushed(cx, base, vs, d, b, |d|, |Body(cx, b)|)
    ensures Popped(cx, base, vs, d, b, 0, 0)
  {
    forall x | x in cx.allocas
      ensures PoppedAt(cx, base, vs, d, b, 0, 0, x)
    {
      var full := AllPushes(cx, d, b, x);
      assert full[..|full|] == full;
    }
  }

  lemma PopOne(base: seq<Operand>, full: seq<Operand>, n: nat, s: seq<Operand>)
    requires n < |full| && s == base + full[..|full| - n]
    ensures s != [] && s[..|s| - 1] == base + full[..|full| - (n + 1)]
  {
  }

  lemma PopPhiTop(cx: Context, base: Stacks, vs: Stacks, d: seq<Name>, b: Block, k: nat, x: Name)
    requires SourceOk(cx) && k < |d| && PoppedAt(cx, base, vs, d, b, k, 0, x)
    requires d[k].PhiName? && d[k].slot == x
    ensures x in vs && vs[x] != [] && PoppedAt(cx, base, Pop(vs, x), d, b, k + 1, 0, x)
  {
    hide SourceOk;
    PhiPushesGrow(d, k + 1, |d|, x);
    PopOne(Get(base, x), AllPushes(cx, d, b, x), |PhiPushes(d, k, x)|, Get(vs, x));
  }

  lemma PopPhi(cx: Context, base: Stacks, vs: Stacks, d: seq<Name>, b: Block, k: nat, x: Name)
    requires SourceOk(cx) && k < |d| && Popped(cx, base, vs, d, b, k, 0)
    requires d[k].PhiName? && d[k].slot == x && x in cx.allocas
    ensures x in vs && vs[x] != [] && Popped(cx, base, Pop(vs, x), d, b, k + 1, 0)
  {
    hide SourceOk;
    assert PoppedAt(cx, base, vs, d, b, k, 0, x);
    PopPhiTop(cx, base, vs, d, b, k, x);
    var vs' := Pop(vs, x);
    forall y | y in cx.allocas
      ensures PoppedAt(cx, base, vs', d, b, k + 1, 0, y)
    {
      assert PoppedAt(cx, base, vs, d, b, k, 0, y);
    }
  }

  lemma PopStoreTop(cx: Context, base: Stacks, vs: Stacks, d: seq<Name>, b: Block, i: nat, x: Name)
    requires SourceOk(cx) && i < |Body(cx, b)| && PoppedAt(cx, base, vs, d, b, |d|, i, x)
    requires Body(cx, b)[i].Store? && Body(cx, b)[i].ptr == Ref(x)
    ensures x in vs && vs[x] != [] && PoppedAt(cx, base, Pop(vs, x), d, b, |d|, i + 1, x)
  {
    hide SourceOk;
    BodyPushesGrow(cx, b, i + 1, |Body(cx, b)|, x);
    PopOne(Get(base, x), AllPushes(cx, d, b, x), |PhiPushes(d, |d|, x)| + |BodyPushes(cx, b, i, x)|, Get(vs, x));
  }

  lemma PopStore(cx: Context, base: Stacks, vs: Stacks, d: seq<Name>, b: Block, i: nat, x: Name)
    requires SourceOk(cx) && i < |Body(cx, b)| && Popped(cx, base, vs, d, b, |d|, i)
    requires Body(cx, b)[i].Store? && Body(cx, b)[i].ptr == Ref(x) && x in cx.allocas
    ensures x in vs && vs[x] != [] && Popped(cx, base, Pop(vs, x), d, b, |d|, i + 1)
  {
    hide SourceOk;
    hide PoppedAt, BodyPushes, PhiPushes;
    assert PoppedAt(cx, base, vs, d, b, |d|, i, x);
    PopStoreTop(cx, base, vs, d, b, i, x);
    var vs' := Pop(vs, x);
    forall y | y in cx.allocas
      ensures PoppedAt(cx, base, vs', d, b, |d|, i + 1, y)
    {
      if y != x { PopStoreOther(cx, base, vs, d, b, i, x, y); }
    }
  }

  lemma PopStoreOther(cx: Context, base: Stacks, vs: Stacks, d: seq<Name>, b: Block, i: nat, x: Name, y: Name)
    requires SourceOk(cx) && i < |Body(cx, b)| && PoppedAt(cx, base, vs, d, b, |d|, i, y)
    requires Body(cx, b)[i].Store? && Body(cx, b)[i].ptr == Ref(x) && y != x && x in vs && vs[x] != []
    ensures PoppedAt(cx, base, Pop(vs, x), d, b, |d|, i + 1, y)
  {
    hide SourceOk;
    assert Get(Pop(vs, x), y) == Get(vs, y);
    assert BodyPushes(cx, b, i + 1, y) == BodyPushes(cx, b, i, y);
  }

  lemma NoPush(cx: Context, b: Block, i: nat, y: Name)
    requires SourceOk(cx) && i < |Body(cx, b)| && !IsSlotStore(cx.allocas, Body(cx, b)[i]) && y in cx.allocas
    ensures BodyPushes(cx, b, i + 1, y) == BodyPushes(cx, b, i, y)
  {
  }

  lemma PopOther(cx: Context, base: Stacks, vs: Stacks, d: seq<Name>, b: Block, i: nat)
    requires SourceOk(cx) && i < |Body(cx, b)| && Popped(cx, base, vs, d, b, |d|, i)
    requires !IsSlotStore(cx.allocas, Body(cx, b)[i])
    ensures Popped(cx, base, vs, d, b, |d|, i + 1)
  {
    forall y | y in cx.allocas
      ensures PoppedAt(cx, base, vs, d, b, |d|, i + 1, y)
    {
      assert PoppedAt(cx, base, vs, d, b, |d|, i, y);
    }
  }

  ghost predicate SameStacks(cx: Context, vs: Stacks, vs': Stacks) {
    forall x :: x in cx.allocas ==> Get(vs, x) == Get(vs', x)
  }

  lemma PopEnd(cx: Context, base: Stacks, vs: Stacks, d: seq<Name>, b: Block)
    requires SourceOk(cx) && Popped(cx, base, vs, d, b, |d|, |Body(cx, b)|)
    ensures SameStacks(cx, base, vs)
  {
    forall x | x in cx.allocas
      ensures Get(base, x) == Get(vs, x)
    {
      assert PoppedAt(cx, base, vs, d, b, |d|, |Body(cx, b)|, x);
    }
  }

  // ----- The walk -----

  ghost predicate StoredSomewhere(cx: Context, x: Name) {
    exists b :: 0 <= b < |cx.blocks| && LastStore(cx.blocks[b].body, |cx.blocks[b].body|, x).Some?
  }

  /** Stacks exist only for variables that something is stored to. */
  ghost predicate KeysOk(cx: Context, vs: Stacks) {
    forall x :: x in vs ==> x in cx.allocas && StoredSomewhere(cx, x)
  }

  /** `is_valid_ptr`: neither a global variable nor the result of a getelementptr. */
  predicate IsValidPtr(geps: set<Name>, p: Operand) {
    !p.Global? && !(p.Ref? && p.name in geps)
  }

  /** `geps` is what the dynamic cast to GetElementPtrInst recognises. */
  ghost predicate GepsOk(cx: Context, geps: set<Name>) {
    forall b: Block, i: nat {:trigger Accesses(cx, b, i)} :: Accesses(cx, b, i) ==>
      var p := Body(cx, b)[i].ptr;
      IsSlot(cx.allocas, p) <==> IsValidPtr(geps, p)
  }

  ghost predicate ChildrenOk(cx: Context, children: map<Block, set<Block>>) {
    forall b {:trigger ChildrenAre(cx.t, children, b)} :: b in cx.t ==> ChildrenAre(cx.t, children, b)
  }

  ghost predicate ChildrenAre(t: Tree, children: map<Block, set<Block>>, b: Block) {
    b in children && forall c {:trigger c in children[b]} :: c in children[b] <==> c in t && t[c] == b && c != b
  }

  /** A load of a variable that is stored to at all has something reaching it. */
  ghost predicate LoadsReached(cx: Context)
    requires SourceOk(cx)
  {
    forall d {:trigger IsLoad(cx, d)} :: IsLoad(cx, d) && StoredSomewhere(cx, LoadedSlot(cx, d)) ==>
      ReachLoad(cx, d).Some?
  }

  ghost predicate Setting(cx: Context, dsts: seq<seq<Name>>, phi2val: map<Name, Name>, geps: set<Name>,
      children: map<Block, set<Block>>) {
    && SourceOk(cx) && GraphOk(cx)
    && DstsOk(cx, dsts) && PhiNames(phi2val, dsts)
    && GepsOk(cx, geps) && ChildrenOk(cx, children) && LoadsReached(cx)
    && (forall b, x :: HasPhi(cx, b, x) ==> StoredSomewhere(cx, x))
  }

  /** Between two blocks of the walk. */
  ghost predicate WalkInv(cx: Context, dsts: seq<seq<Name>>, blocks: seq<BasicBlock>, vs: Stacks, f: Operand -> Operand,
                          done: set<Name>, entered: set<Block>, finished: set<Block>) {
    && SourceOk(cx)
    && View(cx, f, blocks, finished) && IsPart(cx, done, f)
    && PhiView(cx, dsts, blocks, entered, ENTRY, {})
    && KeysOk(cx, vs) && DoneUpTo(cx, done, entered, ENTRY, 0) && finished <= entered
  }

  ghost function Subtree(cx: Context, b: Block): set<Block>
    requires TreeOk(cx)
  {
    set c | c in cx.t && OnChain(cx.id, cx.t, b, c)
  }

  /** b is next: its dominators have been entered, nothing below it has. */
  ghost predicate Ready(cx: Context, entered: set<Block>, b: Block) {
    && TreeOk(cx) && b in cx.t
    && (forall c :: OnChain(cx.id, cx.t, c, b) && c != b ==> c in entered)
    && (forall c :: c in Subtree(cx, b) ==> c !in entered)
  }

  /** Inside block bb, after its first i instructions. */
  ghost predicate MidInv(cx: Context, dsts: seq<seq<Name>>, blocks: seq<BasicBlock>, base: Stacks, vs: Stacks,
      f: Operand -> Operand, done: set<Name>, entered: set<Block>, finished: set<Block>, bb: Block, i: nat) {
    && SourceOk(cx) && Ready(cx, entered, bb) && finished <= entered && |dsts| == |cx.blocks| && i <= |Body(cx, bb)|
    && View(cx, f, blocks, finished) && IsPart(cx, done, f)
    && PhiView(cx, dsts, blocks, entered, ENTRY, {})
    && KeysOk(cx, vs) && DoneUpTo(cx, done, entered, bb, i)
    && StacksInherit(cx, base, bb) && Pushed(cx, base, vs, dsts[bb], bb, |dsts[bb]|, i)
  }

  lemma SelfInSubtree(cx: Context, b: Block)
    requires TreeOk(cx) && b in cx.t
    ensures b in Subtree(cx, b)
  {
  }

  /** The current text of bb. */
  lemma MidText(cx: Context, dsts: seq<seq<Name>>, blocks: seq<BasicBlock>, base: Stacks, vs: Stacks,
      f: Operand -> Operand, done: set<Name>, entered: set<Block>, finished: set<Block>, bb: Block, i: nat)
    requires MidInv(cx, dsts, blocks, base, vs, f, done, entered, finished, bb, i)
    ensures bb < |blocks| == |dsts| == |cx.blocks| && bb !in entered && bb !in finished && bb in cx.t
    ensures blocks[bb].body == MapBody(f, Body(cx, bb)) && |blocks[bb].body| == |Body(cx, bb)|
  {
    SelfInSubtree(cx, bb);
    assert ViewBlock(cx, f, blocks, finished, bb);
  }

  /** Instruction i of bb as the walk finds it. */
  lemma MidInstr(cx: Context, dsts: seq<seq<Name>>, geps: set<Name>, blocks: seq<BasicBlock>, base: Stacks, vs: Stacks,
      f: Operand -> Operand, done: set<Name>, entered: set<Block>, finished: set<Block>, bb: Block, i: nat)
    requires MidInv(cx, dsts, blocks, base, vs, f, done, entered, finished, bb, i) && i < |Body(cx, bb)|
    requires GepsOk(cx, geps)
    ensures bb < |blocks| && i < |blocks[bb].body|
    ensures var ins, orig := blocks[bb].body[i], Body(cx, bb)[i];
            && ins == MapInstr(f, orig)
            && (ins.Load? <==> orig.Load?) && (ins.Store? <==> orig.Store?) && (ins.Load? ==> ins.dst == orig.dst)
            && (ins.Load? || ins.Store? ==> ins.ptr == orig.ptr)
            && (ins.Load? || ins.Store? ==>
                  (IsSlot(cx.allocas, orig.ptr) <==> IsValidPtr(geps, ins.ptr)))
            && (ins.Store? ==> ins.val == Resolve(cx, orig.val))
  {
    MidText(cx, dsts, blocks, base, vs, f, done, entered, finished, bb, i);
    var orig := Body(cx, bb)[i];
    if orig.Load? || orig.Store? {
      assert Accesses(cx, bb, i);
      PointerStays(cx, done, f, bb, i);
    }
    if orig.Store? {
      UsesAt(cx, bb, i, orig.val);
      OperandSettled(cx, done, f, entered, bb, i, orig.val);
    }
  }

  /** The address of a load or store in a block that still has its stores. */
  lemma TextInstr(cx: Context, geps: set<Name>, blocks: seq<BasicBlock>, f: Operand -> Operand, done: set<Name>,
                  finished: set<Block>, bb: Block, i: nat)
    requires SourceOk(cx) && View(cx, f, blocks, finished) && IsPart(cx, done, f) && GepsOk(cx, geps)
    requires bb < |blocks| && bb !in finished && i < |Body(cx, bb)|
    ensures |blocks[bb].body| == |Body(cx, bb)|
    ensures var ins, orig := blocks[bb].body[i], Body(cx, bb)[i];
            && (ins.Store? <==> orig.Store?)
            && (ins.Store? ==> ins.ptr == orig.ptr && (IsSlotStore(cx.allocas, orig) <==> IsValidPtr(geps, ins.ptr)))
            && (ins.Store? && IsValidPtr(geps, ins.ptr) ==> orig.ptr == Ref(ins.ptr.name) && ins.ptr.name in cx.allocas)
            && (IsSlotStore(cx.allocas, ins) <==> ins.Store? && IsValidPtr(geps, ins.ptr))
            && (IsSlotStore(cx.allocas, orig) ==> ins.Store?)
  {
    assert ViewBlock(cx, f, blocks, finished, bb);
    if Body(cx, bb)[i].Store? {
      assert Accesses(cx, bb, i);
      PointerStays(cx, done, f, bb, i);
    }
  }

  lemma MidBegin(cx: Context, dsts: seq<seq<Name>>, blocks: seq<BasicBlock>, base: Stacks, vs0: Stacks, vs: Stacks,
      f: Operand -> Operand, done: set<Name>, entered: set<Block>, finished: set<Block>, bb: Block)
    requires WalkInv(cx, dsts, blocks, vs0, f, done, entered, finished) && DstsOk(cx, dsts) && Ready(cx, entered, bb)
    requires StacksInherit(cx, base, bb) && KeysOk(cx, vs) && Pushed(cx, base, vs, dsts[bb], bb, |dsts[bb]|, 0)
    ensures MidInv(cx, dsts, blocks, base, vs, f, done, entered, finished, bb, 0)
  {
  }

  lemma DoneNext(cx: Context, done: set<Name>, entered: set<Block>, bb: Block, i: nat)
    requires SourceOk(cx) && bb in cx.t && i < |Body(cx, bb)| && DoneUpTo(cx, done, entered, bb, i) && bb !in entered
    ensures var ins := Body(cx, bb)[i];
            if ins.Load? && Resolvable(cx, ins.dst) then
              ins.dst !in done && DoneUpTo(cx, done + {ins.dst}, entered, bb, i + 1)
            else DoneUpTo(cx, done, entered, bb, i + 1)
  {
    var ins := Body(cx, bb)[i];
    assert Located(cx, bb, i);
    forall d | Resolvable(cx, d) && cx.loc[d].b == bb && cx.loc[d].i == i
      ensures ins.Load? && ins.dst == d
    {
      assert IsDefinition(cx, d, cx.loc[d]);
    }
    if ins.Load? && Resolvable(cx, ins.dst) {
      forall d | Resolvable(cx, d)
        ensures d in done + {ins.dst} <==> cx.loc[d].b in entered || (cx.loc[d].b == bb && cx.loc[d].i < i + 1)
      {
      }
    } else {
      forall d | Resolvable(cx, d)
        ensures d in done <==> cx.loc[d].b in entered || (cx.loc[d].b == bb && cx.loc[d].i < i + 1)
      {
      }
    }
  }

  /** No store to a variable: nothing is pushed. */
  lemma PushedNext(cx: Context, base: Stacks, vs: Stacks, d: seq<Name>, bb: Block, i: nat)
    requires SourceOk(cx) && i < |Body(cx, bb)| && Pushed(cx, base, vs, d, bb, |d|, i)
    requires !IsSlotStore(cx.allocas, Body(cx, bb)[i])
    ensures Pushed(cx, base, vs, d, bb, |d|, i + 1)
  {
    forall x | x in cx.allocas
      ensures Get(vs, x) == Get(base, x) + PhiPushes(d, |d|, x) + BodyPushes(cx, bb, i + 1, x)
    {
      NoPush(cx, bb, i, x);
    }
  }

  /** A load of a variable with a stack: its top is what the load resolves to. */
  lemma MidLoadTop(cx: Context, dsts: seq<seq<Name>>, blocks: seq<BasicBlock>, base: Stacks, vs: Stacks,
      f: Operand -> Operand, done: set<Name>, entered: set<Block>, finished: set<Block>, bb: Block, i: nat)
    requires MidInv(cx, dsts, blocks, base, vs, f, done, entered, finished, bb, i) && DstsOk(cx, dsts)
    requires LoadsReached(cx)
    requires i < |Body(cx, bb)| && Body(cx, bb)[i].Load? && IsSlot(cx.allocas, Body(cx, bb)[i].ptr)
    ensures var d, x := Body(cx, bb)[i].dst, Body(cx, bb)[i].ptr.name;
            if x in vs then Resolvable(cx, d) && vs[x] != [] && vs[x][|vs[x]| - 1] == Resolve(cx, Ref(d))
            else !Resolvable(cx, d)
  {
    var d, x := Body(cx, bb)[i].dst, Body(cx, bb)[i].ptr.name;
    assert Located(cx, bb, i) && BlockDstsOk(cx, dsts[bb], bb);
    PushedTops(cx, base, vs, dsts[bb], bb, i);
    assert IsLoad(cx, d) && LoadedSlot(cx, d) == x;
    assert TopIs(vs, x, TopAt(cx, bb, i, x));
  }

  lemma MidReplace(cx: Context, dsts: seq<seq<Name>>, blocks: seq<BasicBlock>, base: Stacks, vs: Stacks,
      f: Operand -> Operand, done: set<Name>, entered: set<Block>, finished: set<Block>, bb: Block, i: nat, d: Name,
      v: Operand)
    requires MidInv(cx, dsts, blocks, base, vs, f, done, entered, finished, bb, i) && DstsOk(cx, dsts)
    requires i < |Body(cx, bb)| && Body(cx, bb)[i].Load? && Body(cx, bb)[i].dst == d && Resolvable(cx, d)
    requires v == Resolve(cx, Ref(d))
    ensures MidInv(cx, dsts, MapBlocks(Replace(d, v), blocks), base, vs, Then(f, d, v), done + {d}, entered, finished,
            bb, i + 1)
  {
    SelfInSubtree(cx, bb);
    DoneNext(cx, done, entered, bb, i);
    PartThen(cx, done, f, d);
    ViewThen(cx, done, f, d, blocks, finished);
    PhiViewThen(cx, dsts, blocks, entered, d);
    PushedNext(cx, base, vs, dsts[bb], bb, i);
  }

  lemma MidSkip(cx: Context, dsts: seq<seq<Name>>, blocks: seq<BasicBlock>, base: Stacks, vs: Stacks,
      f: Operand -> Operand, done: set<Name>, entered: set<Block>, finished: set<Block>, bb: Block, i: nat)
    requires MidInv(cx, dsts, blocks, base, vs, f, done, entered, finished, bb, i)
    requires i < |Body(cx, bb)| && !IsSlotStore(cx.allocas, Body(cx, bb)[i])
    requires Body(cx, bb)[i].Load? ==> !Resolvable(cx, Body(cx, bb)[i].dst)
    ensures MidInv(cx, dsts, blocks, base, vs, f, done, entered, finished, bb, i + 1)
  {
    SelfInSubtree(cx, bb);
    DoneNext(cx, done, entered, bb, i);
    PushedNext(cx, base, vs, dsts[bb], bb, i);
  }

  /** A load through a pointer is never resolved. */
  lemma MemoryLoadStays(cx: Context, bb: Block, i: nat)
    requires SourceOk(cx) && bb in cx.t && i < |Body(cx, bb)| && Body(cx, bb)[i].Load?
    requires !IsSlot(cx.allocas, Body(cx, bb)[i].ptr)
    ensures !Resolvable(cx, Body(cx, bb)[i].dst)
  {
    assert Located(cx, bb, i);
  }

  lemma MidPush(cx: Context, dsts: seq<seq<Name>>, blocks: seq<BasicBlock>, base: Stacks, vs: Stacks,
      f: Operand -> Operand, done: set<Name>, entered: set<Block>, finished: set<Block>, bb: Block, i: nat, x: Name,
      v: Operand)
    requires MidInv(cx, dsts, blocks, base, vs, f, done, entered, finished, bb, i) && bb < |cx.blocks|
    requires i < |Body(cx, bb)| && Body(cx, bb)[i].Store? && Body(cx, bb)[i].ptr == Ref(x) && x in cx.allocas
    requires v == Resolve(cx, Body(cx, bb)[i].val)
    ensures MidInv(cx, dsts, blocks, base, vs[x := Get(vs, x) + [v]], f, done, entered, finished, bb, i + 1)
  {
    SelfInSubtree(cx, bb);
    DoneNext(cx, done, entered, bb, i);
    StoreIsSomewhere(cx, bb, i, x);
    PushStore(cx, base, vs, dsts[bb], bb, i, x, v);
  }

  lemma PushStore(cx: Context, base: Stacks, vs: Stacks, d: seq<Name>, bb: Block, i: nat, x: Name, v: Operand)
    requires SourceOk(cx) && i < |Body(cx, bb)| && Pushed(cx, base, vs, d, bb, |d|, i)
    requires Body(cx, bb)[i].Store? && Body(cx, bb)[i].ptr == Ref(x) && x in cx.allocas
    requires v == Resolve(cx, Body(cx, bb)[i].val)
    ensures Pushed(cx, base, vs[x := Get(vs, x) + [v]], d, bb, |d|, i + 1)
  {
    hide SourceOk, PhiPushes, BodyPushes;
    var vs' := vs[x := Get(vs, x) + [v]];
    forall y | y in cx.allocas
      ensures Get(vs', y) == Get(base, y) + PhiPushes(d, |d|, y) + BodyPushes(cx, bb, i + 1, y)
    {
      PushesStore(cx, bb, i, x, v, y);
      assert Get(vs, y) == Get(base, y) + PhiPushes(d, |d|, y) + BodyPushes(cx, bb, i, y);
    }
  }

  lemma PushesStore(cx: Context, bb: Block, i: nat, x: Name, v: Operand, y: Name)
    requires SourceOk(cx) && i < |Body(cx, bb)| && Body(cx, bb)[i].Store? && Body(cx, bb)[i].ptr == Ref(x)
    requires v == Resolve(cx, Body(cx, bb)[i].val)
    ensures BodyPushes(cx, bb, i + 1, y) == BodyPushes(cx, bb, i, y) + (if y == x then [v] else [])
  {
  }

  lemma StoreIsSomewhere(cx: Context, bb: Block, i: nat, x: Name)
    requires bb < |cx.blocks| && i < |Body(cx, bb)| && Body(cx, bb)[i].Store? && Body(cx, bb)[i].ptr == Ref(x)
    ensures StoredSomewhere(cx, x)
  {
    LastStoreSome(cx.blocks[bb].body, i, |cx.blocks[bb].body|, x);
  }

  lemma {:induction false} LastStoreSome(body: seq<Instr>, i: nat, k: nat, x: Name)
    requires i < k <= |body| && body[i].Store? && body[i].ptr == Ref(x)
    ensures LastStore(body, k, x).Some?
  {
    if i < k - 1 { LastStoreSome(body, i, k - 1, x); }
  }

  /** The end of bb: its stack tops are what flows into its successors and its children. */
  lemma MidEnd(cx: Context, dsts: seq<seq<Name>>, blocks: seq<BasicBlock>, base: Stacks, vs: Stacks,
      f: Operand -> Operand, done: set<Name>, entered: set<Block>, finished: set<Block>, bb: Block)
    requires MidInv(cx, dsts, blocks, base, vs, f, done, entered, finished, bb, |Body(cx, bb)|) && DstsOk(cx, dsts)
    ensures bb in cx.t && forall x :: x in cx.allocas ==> TopIs(vs, x, OutOperand(cx, bb, x))
  {
    assert BlockDstsOk(cx, dsts[bb], bb);
    PushedTops(cx, base, vs, dsts[bb], bb, |Body(cx, bb)|);
    forall x | x in cx.allocas
      ensures TopIs(vs, x, OutOperand(cx, bb, x))
    {
      assert TopIs(vs, x, TopAt(cx, bb, |Body(cx, bb)|, x));
    }
  }

  /** Filling in phi operands does not touch the instructions. */
  lemma ViewFrame(cx: Context, f: Operand -> Operand, blocks: seq<BasicBlock>, blocks': seq<BasicBlock>,
      finished: set<Block>)
    requires View(cx, f, blocks, finished) && |blocks'| == |blocks|
    requires forall b :: 0 <= b < |blocks| ==> blocks'[b].body == blocks[b].body && blocks'[b].term == blocks[b].term
    ensures View(cx, f, blocks', finished)
  {
    forall b | 0 <= b < |blocks'|
      ensures ViewBlock(cx, f, blocks', finished, b)
    {
      assert ViewBlock(cx, f, blocks, finished, b);
    }
  }

  lemma DoneEntered(cx: Context, done: set<Name>, entered: set<Block>, bb: Block)
    requires SourceOk(cx) && DoneUpTo(cx, done, entered, bb, |Body(cx, bb)|)
    ensures DoneUpTo(cx, done, entered + {bb}, ENTRY, 0)
  {
    forall d | Resolvable(cx, d)
      ensures d in done <==> cx.loc[d].b in entered + {bb}
    {
      DefinitionInBody(cx, d);
    }
  }

  lemma EnterDone(cx: Context, dsts: seq<seq<Name>>, blocks0: seq<BasicBlock>, blocks: seq<BasicBlock>, base: Stacks,
      vs: Stacks, f: Operand -> Operand, done: set<Name>, entered: set<Block>, finished: set<Block>, bb: Block,
      filled: set<Block>)
    requires MidInv(cx, dsts, blocks0, base, vs, f, done, entered, finished, bb, |Body(cx, bb)|) && DstsOk(cx, dsts)
    requires |blocks| == |blocks0|
    requires forall b :: 0 <= b < |blocks| ==> blocks[b].body == blocks0[b].body && blocks[b].term == blocks0[b].term
    requires PhiView(cx, dsts, blocks, entered, bb, filled) && forall s :: Edge(cx.g, bb, s) ==> s in filled
    ensures WalkInv(cx, dsts, blocks, vs, f, done, entered + {bb}, finished)
  {
    ViewFrame(cx, f, blocks0, blocks, finished);
    FillDone(cx, dsts, blocks, entered, bb, filled);
    DoneEntered(cx, done, entered, bb);
  }

  // ----- Children -----

  /** The walk below bb has finished the children in `kids`. */
  ghost predicate KidsDone(cx: Context, entered0: set<Block>, entered: set<Block>, bb: Block, kids: set<Block>) {
    && TreeOk(cx) && bb in cx.t
    && forall c :: c in entered <==> c in entered0 || c == bb || UnderKid(cx, kids, c)
  }

  ghost predicate UnderKid(cx: Context, kids: set<Block>, c: Block)
    requires TreeOk(cx)
  {
    c in cx.t && exists k :: k in kids && OnChain(cx.id, cx.t, k, c)
  }

  lemma SiblingsApart(cx: Context, bb: Block, k: Block, l: Block, c: Block)
    requires TreeOk(cx) && k in cx.t && l in cx.t && c in cx.t && k != ENTRY && l != ENTRY
    requires cx.t[k] == bb && cx.t[l] == bb
    requires OnChain(cx.id, cx.t, k, c) && OnChain(cx.id, cx.t, l, c)
    ensures k == l
  {
    if cx.id[k] <= cx.id[l] {
      ChainLinear(cx.id, cx.t, l, k, c);
      if l != k { ChainRises(cx.id, cx.t, l, bb); }
    } else {
      ChainLinear(cx.id, cx.t, k, l, c);
      ChainRises(cx.id, cx.t, k, bb);
    }
  }

  lemma KidReady(cx: Context, entered0: set<Block>, entered: set<Block>, bb: Block, kids: set<Block>, k: Block)
    requires Ready(cx, entered0, bb) && KidsDone(cx, entered0, entered, bb, kids)
    requires k in cx.t && cx.t[k] == bb && k != bb && k !in kids
    requires forall l :: l in kids ==> l in cx.t && cx.t[l] == bb && l != bb
    ensures Ready(cx, entered, k) && cx.id[k] < cx.id[bb]
  {
    assert k != ENTRY;
    forall c | OnChain(cx.id, cx.t, c, k) && c != k
      ensures c in entered
    {
      assert OnChain(cx.id, cx.t, c, bb);
    }
    forall c | c in Subtree(cx, k)
      ensures c !in entered
    {
      ChainTransitive(cx.id, cx.t, bb, k, c);
      assert c in Subtree(cx, bb);
      if c == bb { ChainRises(cx.id, cx.t, k, bb); }
      if UnderKid(cx, kids, c) {
        var l :| l in kids && OnChain(cx.id, cx.t, l, c);
        assert l != ENTRY;
        SiblingsApart(cx, bb, k, l, c);
      }
    }
  }

  lemma KidDone(cx: Context, entered0: set<Block>, entered: set<Block>, bb: Block, kids: set<Block>, k: Block)
    requires KidsDone(cx, entered0, entered, bb, kids) && k in cx.t
    ensures KidsDone(cx, entered0, entered + Subtree(cx, k), bb, kids + {k})
  {
    forall c
      ensures c in entered + Subtree(cx, k) <==> c in entered0 || c == bb || UnderKid(cx, kids + {k}, c)
    {
      if UnderKid(cx, kids, c) {
        var l :| l in kids && OnChain(cx.id, cx.t, l, c);
        assert l in kids + {k};
      }
      if c in Subtree(cx, k) {
        assert k in kids + {k};
      }
    }
  }

  lemma {:induction false} ChildAbove(cx: Context, bb: Block, c: Block) returns (k: Block)
    requires TreeOk(cx) && bb in cx.t && c in cx.t && c != bb && OnChain(cx.id, cx.t, bb, c)
    ensures k in cx.t && cx.t[k] == bb && k != bb && OnChain(cx.id, cx.t, k, c)
    decreases cx.id[ENTRY] - cx.id[c]
  {
    if cx.t[c] == bb {
      k := c;
    } else {
      k := ChildAbove(cx, bb, cx.t[c]);
    }
  }

  lemma AllKidsDone(cx: Context, entered0: set<Block>, entered: set<Block>, bb: Block, kids: set<Block>)
    requires KidsDone(cx, entered0, entered, bb, kids)
    requires forall k :: k in kids <==> k in cx.t && cx.t[k] == bb && k != bb
    ensures entered == entered0 + Subtree(cx, bb)
  {
    forall c
      ensures c in entered <==> c in entered0 + Subtree(cx, bb)
    {
      if c in Subtree(cx, bb) && c != bb {
        var k := ChildAbove(cx, bb, c);
        assert UnderKid(cx, kids, c);
      }
      if UnderKid(cx, kids, c) {
        var k :| k in kids && OnChain(cx.id, cx.t, k, c);
        assert OnChain(cx.id, cx.t, bb, k);
        ChainTransitive(cx.id, cx.t, bb, k, c);
      }
      SelfInSubtree(cx, bb);
    }
  }

  lemma KidInherits(cx: Context, vs: Stacks, vs0: Stacks, bb: Block, k: Block)
    requires SourceOk(cx) && bb in cx.t && k in cx.t && cx.t[k] == bb && k != bb && SameStacks(cx, vs0, vs)
    requires forall x :: x in cx.allocas ==> TopIs(vs0, x, OutOperand(cx, bb, x))
    ensures StacksInherit(cx, vs, k)
  {
    assert k != ENTRY;
  }

  // ----- Leaving the block -----

  lemma PushedSame(cx: Context, base: Stacks, vs0: Stacks, vs: Stacks, d: seq<Name>, bb: Block)
    requires SourceOk(cx) && Pushed(cx, base, vs0, d, bb, |d|, |Body(cx, bb)|) && SameStacks(cx, vs0, vs)
    ensures Pushed(cx, base, vs, d, bb, |d|, |Body(cx, bb)|)
  {
  }

  lemma EraseView(cx: Context, f: Operand -> Operand, blocks: seq<BasicBlock>, finished: set<Block>, bb: Block)
    requires View(cx, f, blocks, finished) && bb < |blocks| && bb !in finished
    ensures View(cx, f, blocks[bb := blocks[bb].(body := DropStores(cx.allocas, blocks[bb].body))], finished + {bb})
  {
    var blocks' := blocks[bb := blocks[bb].(body := DropStores(cx.allocas, blocks[bb].body))];
    assert ViewBlock(cx, f, blocks, finished, bb);
    forall b | 0 <= b < |blocks'|
      ensures ViewBlock(cx, f, blocks', finished + {bb}, b)
    {
      assert ViewBlock(cx, f, blocks, finished, b);
    }
  }
}
