/** Dead code elimination: mark what is needed, sweep the rest. */
module DeadCode {
  import opened Ir
  import FuncInfo
  import UseLists

  // ----- What has to stay -----

  /** Calls of impure functions, branches, returns and stores. */
  predicate Critical(isPure: FuncInfo.Marks, it: Instruction) {
    match it
    case Plain(Call(_, f, _)) => !(f in isPure && isPure[f])
    case Plain(Store(_, _)) => true
    case End(_) => true
    case _ => false
  }

  ghost predicate CriticalIn(blocks: seq<BasicBlock>, isPure: FuncInfo.Marks, it: Instruction) {
    InBlocks(blocks, it) && Critical(isPure, it)
  }

  /** The definition of each operand of `it` is in m. */
  ghost predicate OperandsIn(defs: Definitions, m: set<Instruction>, it: Instruction) {
    forall o :: o in AllOperands(it) && o.Ref? && o.name in defs ==> defs[o.name] in m
  }

  /** m has what is critical, and with an instruction the definitions of its operands. */
  ghost predicate Closed(blocks: seq<BasicBlock>, defs: Definitions, isPure: FuncInfo.Marks, m: set<Instruction>) {
    && (forall it {:trigger CriticalIn(blocks, isPure, it)} :: CriticalIn(blocks, isPure, it) ==> it in m)
    && (forall it :: it in m ==> OperandsIn(defs, m, it))
  }

  /** m is what the critical instructions need, and no more. */
  ghost predicate Needed(blocks: seq<BasicBlock>, defs: Definitions, isPure: FuncInfo.Marks, m: set<Instruction>) {
    && Closed(blocks, defs, isPure, m)
    && forall c :: Closed(blocks, defs, isPure, c) ==> m <= c
  }

  lemma NeededUnique(blocks: seq<BasicBlock>, defs: Definitions, isPure: FuncInfo.Marks, m: set<Instruction>,
      m': set<Instruction>)
    requires Needed(blocks, defs, isPure, m) && Needed(blocks, defs, isPure, m')
    ensures m == m'
  {
  }

  // ----- The result of a sweep -----

  function KeepPhis(phis: seq<Phi>, m: set<Instruction>): seq<Phi> {
    if phis == [] then []
    else
      var last := phis[|phis| - 1];
      KeepPhis(phis[..|phis| - 1], m) + (if Join(last) in m then [last] else [])
  }

  function KeepBody(body: seq<Instr>, m: set<Instruction>): seq<Instr> {
    if body == [] then []
    else (if Plain(body[0]) in m then [body[0]] else []) + KeepBody(body[1..], m)
  }

  function SweepBlock(bb: BasicBlock, m: set<Instruction>): BasicBlock {
    BasicBlock(KeepPhis(bb.phis, m), KeepBody(bb.body, m), bb.term)
  }

  function Sweep(blocks: seq<BasicBlock>, m: set<Instruction>): (r: seq<BasicBlock>)
    ensures |r| == |blocks| && forall b :: 0 <= b < |blocks| ==> r[b] == SweepBlock(blocks[b], m)
  {
    seq(|blocks|, b requires 0 <= b < |blocks| => SweepBlock(blocks[b], m))
  }

  lemma {:induction false} KeepPhisIn(phis: seq<Phi>, m: set<Instruction>, phi: Phi)
    ensures phi in KeepPhis(phis, m) <==> phi in phis && Join(phi) in m
  {
    if phis != [] {
      var last := phis[|phis| - 1];
      assert phis == phis[..|phis| - 1] + [last];
      KeepPhisIn(phis[..|phis| - 1], m, phi);
    }
  }

  lemma {:induction false} KeepBodyIn(body: seq<Instr>, m: set<Instruction>, ins: Instr)
    ensures ins in KeepBody(body, m) <==> ins in body && Plain(ins) in m
  {
    if body != [] {
      assert body == [body[0]] + body[1..];
      KeepBodyIn(body[1..], m, ins);
    }
  }

  /** Exactly the marked instructions survive. */
  lemma SweepKeeps(blocks: seq<BasicBlock>, defs: Definitions, isPure: FuncInfo.Marks, m: set<Instruction>,
      it: Instruction)
    requires Closed(blocks, defs, isPure, m)
    ensures InBlocks(Sweep(blocks, m), it) <==> InBlocks(blocks, it) && it in m
  {
    forall b | 0 <= b < |blocks|
      ensures InBlock(SweepBlock(blocks[b], m), it) <==> InBlock(blocks[b], it) && it in m
    {
      match it
      case Plain(ins) => KeepBodyIn(blocks[b].body, m, ins);
      case Join(phi) => KeepPhisIn(blocks[b].phis, m, phi);
      case End(t) =>
        if t == blocks[b].term {
          assert InBlock(blocks[b], it);
          assert CriticalIn(blocks, isPure, it);
        }
    }
    if InBlocks(blocks, it) && it in m {
      var b :| 0 <= b < |blocks| && InBlock(blocks[b], it);
      assert InBlock(Sweep(blocks, m)[b], it);
    }
  }

  /** A second mark finds what the first one found. */
  lemma NeededAgain(blocks: seq<BasicBlock>, defs: Definitions, isPure: FuncInfo.Marks, m: set<Instruction>)
    requires Needed(blocks, defs, isPure, m)
    ensures Needed(Sweep(blocks, m), defs, isPure, m)
  {
    forall it
      ensures CriticalIn(Sweep(blocks, m), isPure, it) <==> CriticalIn(blocks, isPure, it)
    {
      SweepKeeps(blocks, defs, isPure, m, it);
    }
    forall c | Closed(Sweep(blocks, m), defs, isPure, c)
      ensures m <= c
    {
      assert Closed(blocks, defs, isPure, c);
    }
  }

  lemma {:induction false} KeepPhisAll(phis: seq<Phi>, m: set<Instruction>)
    ensures KeepPhis(KeepPhis(phis, m), m) == KeepPhis(phis, m)
  {
    if phis != [] {
      var front := KeepPhis(phis[..|phis| - 1], m);
      var last := phis[|phis| - 1];
      KeepPhisAll(phis[..|phis| - 1], m);
      if Join(last) in m {
        assert (front + [last])[..|front|] == front;
      } else {
        assert front + [] == front;
      }
    }
  }

  lemma {:induction false} KeepBodyAll(body: seq<Instr>, m: set<Instruction>)
    ensures KeepBody(KeepBody(body, m), m) == KeepBody(body, m)
  {
    if body != [] {
      var rest := KeepBody(body[1..], m);
      KeepBodyAll(body[1..], m);
      if Plain(body[0]) in m {
        assert ([body[0]] + rest)[1..] == rest;
      } else {
        assert [] + rest == rest;
      }
    }
  }

  /** A second mark and sweep deletes nothing, so the loop of the pass stops. */
  lemma SweepTwice(blocks: seq<BasicBlock>, defs: Definitions, isPure: FuncInfo.Marks, m: set<Instruction>,
      m': set<Instruction>)
    requires Needed(blocks, defs, isPure, m) && Needed(Sweep(blocks, m), defs, isPure, m')
    ensures Sweep(Sweep(blocks, m), m') == Sweep(blocks, m)
  {
    NeededAgain(blocks, defs, isPure, m);
    NeededUnique(Sweep(blocks, m), defs, isPure, m, m');
    forall b | 0 <= b < |blocks|
      ensures SweepBlock(SweepBlock(blocks[b], m), m) == SweepBlock(blocks[b], m)
    {
      KeepPhisAll(blocks[b].phis, m);
      KeepBodyAll(blocks[b].body, m);
    }
  }

  /** Every definition in the table is an instruction of the function. */
  ghost predicate DefinedInside(blocks: seq<BasicBlock>, defs: Definitions) {
    forall d :: d in defs ==> InBlocks(blocks, defs[d])
  }

  /** No instruction that is left has a deleted operand. */
  lemma NoDanglingOperand(blocks: seq<BasicBlock>, defs: Definitions, isPure: FuncInfo.Marks, m: set<Instruction>,
      it: Instruction, o: Operand)
    requires Needed(blocks, defs, isPure, m) && DefinedInside(blocks, defs)
    requires InBlocks(Sweep(blocks, m), it) && o in AllOperands(it) && o.Ref? && o.name in defs
    ensures InBlocks(Sweep(blocks, m), defs[o.name])
  {
    SweepKeeps(blocks, defs, isPure, m, it);
    assert OperandsIn(defs, m, it);
    SweepKeeps(blocks, defs, isPure, m, defs[o.name]);
  }

  // ----- The worklist -----

  ghost predicate Marking(blocks: seq<BasicBlock>, defs: Definitions, isPure: FuncInfo.Marks, m: set<Instruction>,
      work: seq<Instruction>) {
    && (forall it :: it in work ==> it in m)
    && (forall it :: it in m && it !in work ==> OperandsIn(defs, m, it))
    && (forall it :: it in m ==> InBlocks(blocks, it) || it in defs.Values)
    && forall c :: Closed(blocks, defs, isPure, c) ==> m <= c
  }

  lemma MarkCritical(blocks: seq<BasicBlock>, defs: Definitions, isPure: FuncInfo.Marks, m: set<Instruction>,
      work: seq<Instruction>, it: Instruction)
    requires Marking(blocks, defs, isPure, m, work) && InBlocks(blocks, it) && Critical(isPure, it)
    ensures Marking(blocks, defs, isPure, m + {it}, work + [it])
  {
    assert CriticalIn(blocks, isPure, it);
    forall x | x in m + {it} && x !in work + [it]
      ensures OperandsIn(defs, m + {it}, x)
    {
      assert (work + [it])[|work|] == it;
      assert OperandsIn(defs, m, x);
    }
  }

  /** While the operands of `now` are looked at: the first k are done. */
  ghost predicate Visiting(blocks: seq<BasicBlock>, defs: Definitions, isPure: FuncInfo.Marks, m: set<Instruction>,
      work: seq<Instruction>, now: Instruction, k: nat) {
    && now in m && k <= |AllOperands(now)| && Marking(blocks, defs, isPure, m, [now] + work)
    && forall j :: 0 <= j < k ==> OperandDone(defs, m, AllOperands(now)[j])
  }

  ghost predicate OperandDone(defs: Definitions, m: set<Instruction>, o: Operand) {
    o.Ref? && o.name in defs ==> defs[o.name] in m
  }

  lemma VisitBegins(blocks: seq<BasicBlock>, defs: Definitions, isPure: FuncInfo.Marks, m: set<Instruction>,
      work: seq<Instruction>)
    requires Marking(blocks, defs, isPure, m, work) && work != []
    ensures Visiting(blocks, defs, isPure, m, work[1..], work[0], 0)
  {
    assert work == [work[0]] + work[1..];
  }

  lemma VisitMarks(blocks: seq<BasicBlock>, defs: Definitions, isPure: FuncInfo.Marks, m: set<Instruction>,
      work: seq<Instruction>, now: Instruction, k: nat, d: Instruction)
    requires Visiting(blocks, defs, isPure, m, work, now, k) && k < |AllOperands(now)|
    requires var o := AllOperands(now)[k]; o.Ref? && o.name in defs && d == defs[o.name] && d !in m
    ensures Visiting(blocks, defs, isPure, m + {d}, work + [d], now, k + 1)
  {
    var w := [now] + work;
    assert [now] + (work + [d]) == w + [d];
    forall c | Closed(blocks, defs, isPure, c)
      ensures m + {d} <= c
    {
      assert now in c && OperandsIn(defs, c, now);
    }
    forall x | x in m + {d} && x !in w + [d]
      ensures OperandsIn(defs, m + {d}, x)
    {
      assert (w + [d])[|w|] == d;
      assert OperandsIn(defs, m, x);
    }
    assert d in defs.Values;
  }

  lemma VisitSkips(blocks: seq<BasicBlock>, defs: Definitions, isPure: FuncInfo.Marks, m: set<Instruction>,
      work: seq<Instruction>, now: Instruction, k: nat)
    requires Visiting(blocks, defs, isPure, m, work, now, k) && k < |AllOperands(now)|
    requires OperandDone(defs, m, AllOperands(now)[k])
    ensures Visiting(blocks, defs, isPure, m, work, now, k + 1)
  {
  }

  lemma VisitEnds(blocks: seq<BasicBlock>, defs: Definitions, isPure: FuncInfo.Marks, m: set<Instruction>,
      work: seq<Instruction>, now: Instruction)
    requires Visiting(blocks, defs, isPure, m, work, now, |AllOperands(now)|)
    ensures Marking(blocks, defs, isPure, m, work)
  {
    forall it | it in m && it !in work
      ensures OperandsIn(defs, m, it)
    {
      if it == now {
        forall o | o in AllOperands(now) && o.Ref? && o.name in defs
          ensures defs[o.name] in m
        {
          var j :| 0 <= j < |AllOperands(now)| && AllOperands(now)[j] == o;
          assert OperandDone(defs, m, AllOperands(now)[j]);
        }
      } else {
        assert it !in [now] + work;
      }
    }
  }

  lemma MarkEnds(blocks: seq<BasicBlock>, defs: Definitions, isPure: FuncInfo.Marks, m: set<Instruction>)
    requires Marking(blocks, defs, isPure, m, [])
    requires forall it {:trigger CriticalIn(blocks, isPure, it)} :: CriticalIn(blocks, isPure, it) ==> it in m
    ensures Needed(blocks, defs, isPure, m)
  {
  }

  // ----- Counting what a sweep deletes -----

  lemma {:induction false} KeepBodySnoc(body: seq<Instr>, m: set<Instruction>, ins: Instr)
    ensures KeepBody(body + [ins], m) == KeepBody(body, m) + (if Plain(ins) in m then [ins] else [])
  {
    if body == [] {
      assert [] + [ins] == [ins];
    } else {
      assert (body + [ins])[1..] == body[1..] + [ins] && (body + [ins])[0] == body[0];
      KeepBodySnoc(body[1..], m, ins);
      var head, last := if Plain(body[0]) in m then [body[0]] else [], if Plain(ins) in m then [ins] else [];
      assert head + (KeepBody(body[1..], m) + last) == head + KeepBody(body[1..], m) + last;
    }
  }

  lemma KeepPhisSnoc(phis: seq<Phi>, m: set<Instruction>, phi: Phi)
    ensures KeepPhis(phis + [phi], m) == KeepPhis(phis, m) + (if Join(phi) in m then [phi] else [])
  {
    assert (phis + [phi])[..|phis|] == phis;
  }

  lemma {:induction false} KeepBodyFull(body: seq<Instr>, m: set<Instruction>)
    ensures |KeepBody(body, m)| <= |body|
    ensures |KeepBody(body, m)| == |body| ==> KeepBody(body, m) == body
  {
    if body != [] { KeepBodyFull(body[1..], m); }
  }

  lemma {:induction false} KeepPhisFull(phis: seq<Phi>, m: set<Instruction>)
    ensures |KeepPhis(phis, m)| <= |phis|
    ensures |KeepPhis(phis, m)| == |phis| ==> KeepPhis(phis, m) == phis
  {
    if phis != [] {
      KeepPhisFull(phis[..|phis| - 1], m);
      assert phis == phis[..|phis| - 1] + [phis[|phis| - 1]];
    }
  }

  /** The instructions of a block in order. */
  function Listed(bb: BasicBlock): (r: seq<Instruction>)
    ensures |r| == |bb.phis| + |bb.body| + 1
  {
    seq(|bb.phis|, i requires 0 <= i < |bb.phis| => Join(bb.phis[i]))
    + seq(|bb.body|, i requires 0 <= i < |bb.body| => Plain(bb.body[i]))
    + [End(bb.term)]
  }

  lemma ListedIn(bb: BasicBlock, it: Instruction)
    ensures it in Listed(bb) <==> InBlock(bb, it)
  {
    var l := Listed(bb);
    assert forall i :: 0 <= i < |bb.phis| ==> l[i] == Join(bb.phis[i]);
    assert forall i :: 0 <= i < |bb.body| ==> l[|bb.phis| + i] == Plain(bb.body[i]);
    assert l[|bb.phis| + |bb.body|] == End(bb.term);
  }

  /** The critical instructions among the first k of block b and of all earlier blocks are marked. */
  ghost predicate CriticalSoFar(blocks: seq<BasicBlock>, isPure: FuncInfo.Marks, m: set<Instruction>, b: nat, k: nat) {
    && b <= |blocks|
    && (forall c, it {:trigger InBlock(blocks[c], it)} ::
      0 <= c < b && InBlock(blocks[c], it) && Critical(isPure, it) ==> it in m)
    && (k > 0 ==> b < |blocks| && k <= |Listed(blocks[b])| &&
                  forall j :: 0 <= j < k && Critical(isPure, Listed(blocks[b])[j]) ==> Listed(blocks[b])[j] in m)
  }

  lemma CriticalBlock(blocks: seq<BasicBlock>, isPure: FuncInfo.Marks, m: set<Instruction>, b: nat)
    requires b < |blocks| && CriticalSoFar(blocks, isPure, m, b, |Listed(blocks[b])|)
    ensures CriticalSoFar(blocks, isPure, m, b + 1, 0)
  {
    forall it | InBlock(blocks[b], it) && Critical(isPure, it)
      ensures it in m
    {
      ListedIn(blocks[b], it);
    }
  }

  lemma CriticalAll(blocks: seq<BasicBlock>, isPure: FuncInfo.Marks, m: set<Instruction>)
    requires CriticalSoFar(blocks, isPure, m, |blocks|, 0)
    ensures forall it {:trigger CriticalIn(blocks, isPure, it)} :: CriticalIn(blocks, isPure, it) ==> it in m
  {
  }

  ghost function Universe(blocks: seq<BasicBlock>, defs: Definitions): (r: set<Instruction>)
    ensures forall it :: InBlocks(blocks, it) || it in defs.Values ==> it in r
  {
    UniverseHolds(blocks);
    defs.Values + Everything(blocks)
  }

  ghost function Everything(blocks: seq<BasicBlock>): set<Instruction> {
    if blocks == [] then {} else (set it | it in Listed(blocks[0])) + Everything(blocks[1..])
  }

  lemma {:induction false} UniverseHolds(blocks: seq<BasicBlock>)
    ensures forall it :: InBlocks(blocks, it) ==> it in Everything(blocks)
  {
    if blocks != [] {
      UniverseHolds(blocks[1..]);
      forall it | InBlocks(blocks, it)
        ensures it in Everything(blocks)
      {
        ListedIn(blocks[0], it);
        var b :| 0 <= b < |blocks| && InBlock(blocks[b], it);
        if b > 0 { assert InBlock(blocks[1..][b - 1], it); }
      }
    }
  }

  lemma UniverseBounds(blocks: seq<BasicBlock>, defs: Definitions, isPure: FuncInfo.Marks, m: set<Instruction>,
      work: seq<Instruction>)
    requires Marking(blocks, defs, isPure, m, work)
    ensures m <= Universe(blocks, defs)
  {
  }

  // ----- The pass -----

  /** `out` is what one mark and sweep makes of the function. */
  ghost predicate SweptFrom(blocks: seq<BasicBlock>, out: seq<BasicBlock>, defs: Definitions, isPure: FuncInfo.Marks) {
    exists m :: Needed(blocks, defs, isPure, m) && out == Sweep(blocks, m)
  }

  ghost predicate AllSwept(before: seq<seq<BasicBlock>>, after: seq<seq<BasicBlock>>, defs: seq<Definitions>,
      isPure: FuncInfo.Marks, n: nat) {
    && |before| == |after| == |defs| && n <= |before|
    && (forall f {:trigger after[f]} :: 0 <= f < n ==> SweptFrom(before[f], after[f], defs[f], isPure))
    && forall f :: n <= f < |before| ==> after[f] == before[f]
  }

  /** Another round over swept functions changes nothing. */
  lemma SweptAgain(first: seq<seq<BasicBlock>>, second: seq<seq<BasicBlock>>, third: seq<seq<BasicBlock>>,
      defs: seq<Definitions>, isPure: FuncInfo.Marks)
    requires AllSwept(first, second, defs, isPure, |first|) && AllSwept(second, third, defs, isPure, |second|)
    ensures third == second
  {
    forall f | 0 <= f < |first|
      ensures third[f] == second[f]
    {
      assert SweptFrom(first[f], second[f], defs[f], isPure) && SweptFrom(second[f], third[f], defs[f], isPure);
      var m :| Needed(first[f], defs[f], isPure, m) && second[f] == Sweep(first[f], m);
      var m' :| Needed(second[f], defs[f], isPure, m') && third[f] == Sweep(second[f], m');
      SweepTwice(first[f], defs[f], isPure, m, m');
    }
  }

  // ----- What a sweep does to use lists -----

  ghost predicate AllAgree(funcs: seq<seq<BasicBlock>>, uses: seq<UseLists.Lists>) {
    |uses| == |funcs| && forall f {:trigger funcs[f]} :: 0 <= f < |funcs| ==> UseLists.Agree(funcs[f], uses[f])
  }

  /** The instructions without a mark. */
  ghost predicate Unmarked(blocks: seq<BasicBlock>, m: set<Instruction>, gone: set<Instruction>) {
    forall it {:trigger InBlocks(blocks, it)} {:trigger it in gone} :: it in gone <==> InBlocks(blocks, it) && it !in m
  }

  /** The same for the first k instructions of block b and all earlier blocks. */
  ghost predicate UnmarkedSoFar(blocks: seq<BasicBlock>, m: set<Instruction>, gone: set<Instruction>, b: nat, k: nat) {
    && b <= |blocks| && (k > 0 ==> b < |blocks| && k <= |Listed(blocks[b])|)
    && forall it {:trigger it in gone} :: it in gone <==> it !in m && Before(blocks, b, k, it)
  }

  ghost predicate Before(blocks: seq<BasicBlock>, b: nat, k: nat, it: Instruction)
    requires b <= |blocks| && (k > 0 ==> b < |blocks| && k <= |Listed(blocks[b])|)
  {
    (exists c :: 0 <= c < b && InBlock(blocks[c], it)) || (k > 0 && it in Listed(blocks[b])[..k])
  }

  lemma UnmarkedNext(blocks: seq<BasicBlock>, m: set<Instruction>, gone: set<Instruction>, b: nat, k: nat)
    requires UnmarkedSoFar(blocks, m, gone, b, k) && b < |blocks| && k < |Listed(blocks[b])|
    ensures var it := Listed(blocks[b])[k];
            UnmarkedSoFar(blocks, m, if it in m then gone else gone + {it}, b, k + 1)
  {
    var list := Listed(blocks[b]);
    hide Listed, InBlock;
    assert list[..k + 1] == list[..k] + [list[k]];
    forall it
      ensures Before(blocks, b, k + 1, it) <==> Before(blocks, b, k, it) || it == list[k]
    {
    }
  }

  lemma UnmarkedBlock(blocks: seq<BasicBlock>, m: set<Instruction>, gone: set<Instruction>, b: nat)
    requires b < |blocks| && UnmarkedSoFar(blocks, m, gone, b, |Listed(blocks[b])|)
    ensures UnmarkedSoFar(blocks, m, gone, b + 1, 0)
  {
    var list := Listed(blocks[b]);
    assert list[..|list|] == list;
    forall it
      ensures Before(blocks, b + 1, 0, it) <==> Before(blocks, b, |list|, it)
    {
      ListedIn(blocks[b], it);
    }
  }

  lemma UnmarkedAll(blocks: seq<BasicBlock>, m: set<Instruction>, gone: set<Instruction>)
    requires UnmarkedSoFar(blocks, m, gone, |blocks|, 0)
    ensures Unmarked(blocks, m, gone)
  {
    forall it
      ensures Before(blocks, |blocks|, 0, it) <==> InBlocks(blocks, it)
    {
    }
  }

  lemma SweepDeletes(blocks: seq<BasicBlock>, defs: Definitions, isPure: FuncInfo.Marks, m: set<Instruction>,
      gone: set<Instruction>)
    requires Needed(blocks, defs, isPure, m) && Unmarked(blocks, m, gone)
    ensures forall it :: InBlocks(Sweep(blocks, m), it) <==> InBlocks(blocks, it) && it !in gone
  {
    hide InBlocks, Sweep;
    forall it
      ensures InBlocks(Sweep(blocks, m), it) <==> InBlocks(blocks, it) && it !in gone
    {
      SweepKeeps(blocks, defs, isPure, m, it);
    }
  }

  /** Nothing uses what has been deleted: its use list is empty after the sweep. */
  lemma DeletedUnused(blocks: seq<BasicBlock>, defs: Definitions, isPure: FuncInfo.Marks, m: set<Instruction>,
      uses: UseLists.Lists, d: Name)
    requires Needed(blocks, defs, isPure, m) && UseLists.Agree(Sweep(blocks, m), uses)
    requires d in uses && d in defs && defs[d] !in m
    ensures uses[d] == []
  {
    if uses[d] != [] {
      hide Sweep, InBlocks;
      var it, i := uses[d][0].0, uses[d][0].1;
      assert (it, i) in uses[d] && UseLists.UsedAt(it, i, d);
      SweepKeeps(blocks, defs, isPure, m, it);
      OperandMarked(defs, m, it, i, d);
    }
  }

  lemma OperandMarked(defs: Definitions, m: set<Instruction>, it: Instruction, i: nat, d: Name)
    requires OperandsIn(defs, m, it) && UseLists.UsedAt(it, i, d) && d in defs
    ensures defs[d] in m
  {
    assert AllOperands(it)[i] in AllOperands(it);
  }

  /** How many instructions a function has, not counting terminators. */
  function Count(blocks: seq<BasicBlock>): nat {
    if blocks == [] then 0
    else
      var last := blocks[|blocks| - 1];
      Count(blocks[..|blocks| - 1]) + |last.phis| + |last.body|
  }

  ghost predicate ErasedSoFar(blocks: seq<BasicBlock>, m: set<Instruction>, out: seq<BasicBlock>, b: nat,
      deleted: int) {
    && b <= |blocks| && out == Sweep(blocks[..b], m) && deleted == Count(blocks[..b]) - Count(out)
    && deleted >= 0 && (deleted == 0 <==> out == blocks[..b])
  }

  lemma NothingErased(blocks: seq<BasicBlock>, m: set<Instruction>)
    ensures ErasedSoFar(blocks, m, [], 0, 0)
  {
  }

  lemma ErasedNext(blocks: seq<BasicBlock>, m: set<Instruction>, out: seq<BasicBlock>, b: nat, deleted: int,
      kept: BasicBlock, n: nat)
    requires ErasedSoFar(blocks, m, out, b, deleted) && b < |blocks| && kept == SweepBlock(blocks[b], m)
    requires n == |blocks[b].phis| - |kept.phis| + |blocks[b].body| - |kept.body| && (n == 0 <==> kept == blocks[b])
    ensures ErasedSoFar(blocks, m, out + [kept], b + 1, deleted + n)
  {
    hide SweepBlock, Count;
    assert blocks[..b + 1] == blocks[..b] + [blocks[b]];
    CountSnoc(blocks[..b], blocks[b]);
    CountSnoc(out, kept);
    SameSnoc(out, blocks[..b], kept, blocks[b]);
  }

  lemma SameSnoc(a: seq<BasicBlock>, b: seq<BasicBlock>, x: BasicBlock, y: BasicBlock)
    requires |a| == |b|
    ensures a + [x] == b + [y] <==> a == b && x == y
  {
    if a + [x] == b + [y] {
      assert a == (a + [x])[..|a|] == (b + [y])[..|a|] == b;
      assert x == (a + [x])[|a|] == (b + [y])[|a|] == y;
    }
  }

  lemma CountSnoc(blocks: seq<BasicBlock>, bb: BasicBlock)
    ensures Count(blocks + [bb]) == Count(blocks) + |bb.phis| + |bb.body|
  {
    assert (blocks + [bb])[..|blocks|] == blocks;
  }

  lemma AllErased(blocks: seq<BasicBlock>, m: set<Instruction>, out: seq<BasicBlock>, deleted: int)
    requires ErasedSoFar(blocks, m, out, |blocks|, deleted)
    ensures out == Sweep(blocks, m) && deleted == Count(blocks) - Count(out) && (deleted == 0 <==> out == blocks)
  {
    hide Sweep, Count;
    assert blocks[..|blocks|] == blocks;
  }

  class Pass {
    const defs: seq<Definitions>
    const isPure: FuncInfo.Marks
    var funcs: seq<seq<BasicBlock>>
    var uses: seq<UseLists.Lists>
    var workList: seq<Instruction>
    var marked: set<Instruction>
    var insCount: nat

    constructor (funcs: seq<seq<BasicBlock>>, defs: seq<Definitions>, isPure: FuncInfo.Marks,
        uses: seq<UseLists.Lists>)
      ensures this.funcs == funcs && this.defs == defs && this.isPure == isPure && this.uses == uses && insCount == 0
    {
      this.funcs, this.defs, this.isPure, this.uses := funcs, defs, isPure, uses;
      workList, marked, insCount := [], {}, 0;
    }

    /** One instruction of the worklist: the definitions of its operands are needed too. */
    method MarkOperands(f: nat, now: Instruction)
      requires f < |funcs| == |defs| && Visiting(funcs[f], defs[f], isPure, marked, workList, now, 0)
      modifies this`workList, this`marked
      ensures Marking(funcs[f], defs[f], isPure, marked, workList)
      ensures (marked == old(marked) && workList == old(workList)) || old(marked) < marked
    {
      hide *;
      var os := AllOperands(now);
      for k := 0 to |os|
        invariant Visiting(funcs[f], defs[f], isPure, marked, workList, now, k)
        invariant (marked == old(marked) && workList == old(workList)) || old(marked) < marked
      {
        var o := os[k];
        if o.Ref? && o.name in defs[f] && defs[f][o.name] !in marked {
          var def := defs[f][o.name];
          VisitMarks(funcs[f], defs[f], isPure, marked, workList, now, k, def);
          marked := marked + {def};
          workList := workList + [def];
        } else {
          assert OperandDone(defs[f], marked, o) by { NothingToMark(defs[f], marked, o); }
          VisitSkips(funcs[f], defs[f], isPure, marked, workList, now, k);
        }
      }
      VisitEnds(funcs[f], defs[f], isPure, marked, workList, now);
    }

    /** Afterwards `marked` holds exactly the instructions that are needed. */
    method MarkFunction(f: nat)
      requires f < |funcs| == |defs|
      modifies this`workList, this`marked
      ensures Needed(funcs[f], defs[f], isPure, marked)
    {
      hide *;
      workList, marked := [], {};
      var blocks := funcs[f];
      NothingMarked(blocks, defs[f], isPure);
      for b := 0 to |blocks|
        invariant Marking(blocks, defs[f], isPure, marked, workList) && CriticalSoFar(blocks, isPure, marked, b, 0)
      {
        var list := Listed(blocks[b]);
        for k := 0 to |list|
          invariant Marking(blocks, defs[f], isPure, marked, workList) && CriticalSoFar(blocks, isPure, marked, b, k)
        {
          CriticalNext(blocks, defs[f], isPure, marked, workList, b, k);
          if Critical(isPure, list[k]) {
            marked := marked + {list[k]};
            workList := workList + [list[k]];
          }
        }
        CriticalBlock(blocks, isPure, marked, b);
      }
      CriticalAll(blocks, isPure, marked);
      ghost var roots := marked;
      while workList != []
        invariant Marking(blocks, defs[f], isPure, marked, workList) && roots <= marked
        decreases Universe(blocks, defs[f]) - marked, |workList|
      {
        UniverseBounds(blocks, defs[f], isPure, marked, workList);
        VisitBegins(blocks, defs[f], isPure, marked, workList);
        ghost var before := marked;
        var now := workList[0];
        workList := workList[1..];
        MarkOperands(f, now);
        UniverseBounds(blocks, defs[f], isPure, marked, workList);
        LessLeft(Universe(blocks, defs[f]), before, marked);
      }
      CriticalStays(blocks, isPure, roots, marked);
      MarkEnds(blocks, defs[f], isPure, marked);
    }

    /** `run`: rounds of mark and sweep over all functions until nothing changes. The functions end
        up as after the first round: the second one deletes nothing. */
    method Run()
      requires |funcs| == |defs| == |uses|
      modifies this
      ensures AllSwept(old(funcs), funcs, defs, isPure, |old(funcs)|)
      ensures AllAgree(old(funcs), old(uses)) ==> AllAgree(funcs, uses)
    {
      hide *;
      ghost var first, uses0 := funcs, uses;
      var changed := Round();
      while changed
        invariant AllSwept(first, funcs, defs, isPure, |first|) && |first| == |funcs| == |defs| == |uses|
        invariant AllAgree(first, uses0) ==> AllAgree(funcs, uses)
        decreases changed
      {
        ghost var second := funcs;
        changed := Round();
        SweptAgain(first, second, funcs, defs, isPure);
      }
    }

    method Round() returns (changed: bool)
      requires |funcs| == |defs| == |uses|
      modifies this
      ensures |funcs| == |uses| == |old(funcs)| && AllSwept(old(funcs), funcs, defs, isPure, |old(funcs)|)
      ensures changed <==> funcs != old(funcs)
      ensures AllAgree(old(funcs), old(uses)) ==> AllAgree(funcs, uses)
    {
      hide Needed, Sweep, UseLists.Agree, UseLists.Without;
      changed := false;
      for f := 0 to |funcs|
        invariant AllSwept(old(funcs), funcs, defs, isPure, f) && |uses| == |funcs|
        invariant changed <==> funcs != old(funcs)
        invariant AllAgree(old(funcs), old(uses)) ==> AllAgree(funcs, uses)
      {
        ghost var before, uses0 := funcs, uses;
        MarkFunction(f);
        var c := SweepFunction(f);
        assert SweptFrom(old(funcs)[f], funcs[f], defs[f], isPure);
        assert c <==> funcs[f] != before[f];
        changed := changed || c;
        if AllAgree(before, uses0) { assert UseLists.Agree(before[f], uses0[f]); }
      }
    }

    /** What is not marked is taken out of the use lists and deleted. */
    method SweepFunction(f: nat) returns (changed: bool)
      requires f < |funcs| == |defs| == |uses| && Needed(funcs[f], defs[f], isPure, marked)
      modifies this`funcs, this`insCount, this`uses
      ensures funcs == old(funcs)[f := Sweep(old(funcs)[f], marked)]
      ensures changed <==> Sweep(old(funcs)[f], marked) != old(funcs)[f]
      ensures |uses| == |old(uses)| && uses == old(uses)[f := uses[f]]
      ensures exists gone :: Unmarked(old(funcs)[f], marked, gone) && uses[f] == UseLists.Without(old(uses)[f], gone)
      ensures UseLists.Agree(old(funcs)[f], old(uses)[f]) ==> UseLists.Agree(funcs[f], uses[f])
      ensures insCount == old(insCount) + Count(old(funcs)[f]) - Count(funcs[f])
    {
      var waitDel := Deletable(f);
      RemoveOperands(f, waitDel);
      changed := Erase(f);
      ghost var blocks, after := old(funcs)[f], funcs[f];
      if UseLists.Agree(blocks, old(uses)[f]) {
        hide Needed, Sweep, InBlocks, UseLists.Agree, UseLists.Without;
        SweepDeletes(blocks, defs[f], isPure, marked, waitDel);
        UseLists.DeletionAgrees(blocks, after, old(uses)[f], waitDel);
      }
    }

    method Deletable(f: nat) returns (waitDel: set<Instruction>)
      requires f < |funcs|
      ensures Unmarked(funcs[f], marked, waitDel)
    {
      var blocks := funcs[f];
      waitDel := {};
      for b := 0 to |blocks|
        invariant UnmarkedSoFar(blocks, marked, waitDel, b, 0)
      {
        var list := Listed(blocks[b]);
        for k := 0 to |list|
          invariant UnmarkedSoFar(blocks, marked, waitDel, b, k)
        {
          UnmarkedNext(blocks, marked, waitDel, b, k);
          if list[k] !in marked {
            waitDel := waitDel + {list[k]};
          }
        }
        UnmarkedBlock(blocks, marked, waitDel, b);
      }
      UnmarkedAll(blocks, marked, waitDel);
    }

    /** `remove_all_operands` of each instruction, in whatever order the set has. */
    method RemoveOperands(f: nat, waitDel: set<Instruction>)
      requires f < |uses|
      modifies this`uses
      ensures uses == old(uses)[f := UseLists.Without(old(uses)[f], waitDel)]
    {
      hide UseLists.Without, UseLists.WithoutFirst;
      ghost var u0, done := uses[f], {};
      UseLists.WithoutNothing(u0);
      var todo := waitDel;
      while todo != {}
        invariant done + todo == waitDel && |uses| == |old(uses)|
        invariant uses == old(uses)[f := UseLists.Without(u0, done)]
        decreases todo
      {
        var it :| it in todo;
        todo := todo - {it};
        RemoveAllOperands(f, it);
        UseLists.WithoutOne(u0, done, it);
        done := done + {it};
      }
      assert done == waitDel;
    }

    method RemoveAllOperands(f: nat, it: Instruction)
      requires f < |uses|
      modifies this`uses
      ensures uses == old(uses)[f := UseLists.WithoutFirst(old(uses)[f], it, |AllOperands(it)|)]
    {
      hide UseLists.WithoutFirst, UseLists.Kept;
      ghost var u0 := uses[f];
      var os := AllOperands(it);
      UseLists.WithoutNone(u0, it);
      for i := 0 to |os|
        invariant |uses| == |old(uses)| && uses == old(uses)[f := UseLists.WithoutFirst(u0, it, i)]
      {
        UseLists.WithoutNext(u0, it, i);
        if os[i].Ref? && os[i].name in uses[f] {
          uses := uses[f := uses[f][os[i].name := UseLists.Kept(uses[f][os[i].name], {(it, i)})]];
        }
      }
    }

    /** Deletes what is not marked. */
    method Erase(f: nat) returns (changed: bool)
      requires f < |funcs|
      modifies this`funcs, this`insCount
      ensures funcs == old(funcs)[f := Sweep(old(funcs)[f], marked)]
      ensures changed <==> Sweep(old(funcs)[f], marked) != old(funcs)[f]
      ensures insCount == old(insCount) + Count(old(funcs)[f]) - Count(funcs[f])
    {
      hide Sweep, SweepBlock, ErasedSoFar, Count;
      var blocks := funcs[f];
      var out := [];
      var deleted := 0;
      NothingErased(blocks, marked);
      for b := 0 to |blocks|
        invariant funcs == old(funcs) && insCount == old(insCount)
        invariant ErasedSoFar(blocks, marked, out, b, deleted)
      {
        var kept, n := SweepOne(blocks[b]);
        ErasedNext(blocks, marked, out, b, deleted, kept, n);
        out := out + [kept];
        deleted := deleted + n;
      }
      AllErased(blocks, marked, out, deleted);
      insCount := insCount + deleted;
      funcs := funcs[f := out];
      changed := deleted != 0;
    }

    method SweepOne(bb: BasicBlock) returns (kept: BasicBlock, deleted: nat)
      ensures kept == SweepBlock(bb, marked)
      ensures deleted == |bb.phis| - |kept.phis| + |bb.body| - |kept.body|
      ensures deleted == 0 <==> kept == bb
    {
      var phis, body := [], [];
      deleted := 0;
      for k := 0 to |bb.phis|
        invariant phis == KeepPhis(bb.phis[..k], marked) && deleted == k - |phis|
      {
        KeepPhisSnoc(bb.phis[..k], marked, bb.phis[k]);
        assert bb.phis[..k + 1] == bb.phis[..k] + [bb.phis[k]];
        if Join(bb.phis[k]) in marked {
          phis := phis + [bb.phis[k]];
        } else {
          deleted := deleted + 1;
        }
      }
      assert bb.phis[..|bb.phis|] == bb.phis;
      for i := 0 to |bb.body|
        invariant body == KeepBody(bb.body[..i], marked) && deleted == |bb.phis| - |phis| + i - |body|
        invariant |phis| <= |bb.phis|
      {
        KeepBodySnoc(bb.body[..i], marked, bb.body[i]);
        assert bb.body[..i + 1] == bb.body[..i] + [bb.body[i]];
        if Plain(bb.body[i]) in marked {
          body := body + [bb.body[i]];
        } else {
          deleted := deleted + 1;
        }
      }
      assert bb.body[..|bb.body|] == bb.body;
      kept := BasicBlock(phis, body, bb.term);
      KeepPhisFull(bb.phis, marked);
      KeepBodyFull(bb.body, marked);
    }
  }

  lemma NothingToMark(defs: Definitions, m: set<Instruction>, o: Operand)
    requires o.Ref? && o.name in defs ==> defs[o.name] in m
    ensures OperandDone(defs, m, o)
  {
  }

  lemma NothingMarked(blocks: seq<BasicBlock>, defs: Definitions, isPure: FuncInfo.Marks)
    ensures Marking(blocks, defs, isPure, {}, []) && CriticalSoFar(blocks, isPure, {}, 0, 0)
  {
  }

  lemma CriticalNext(blocks: seq<BasicBlock>, defs: Definitions, isPure: FuncInfo.Marks, m: set<Instruction>,
      work: seq<Instruction>, b: nat, k: nat)
    requires Marking(blocks, defs, isPure, m, work) && CriticalSoFar(blocks, isPure, m, b, k)
    requires b < |blocks| && k < |Listed(blocks[b])|
    ensures var it := Listed(blocks[b])[k];
            if Critical(isPure, it) then
              Marking(blocks, defs, isPure, m + {it}, work + [it]) && CriticalSoFar(blocks, isPure, m + {it}, b, k + 1)
            else CriticalSoFar(blocks, isPure, m, b, k + 1)
  {
    var it := Listed(blocks[b])[k];
    ListedIn(blocks[b], it);
    if Critical(isPure, it) {
      MarkCritical(blocks, defs, isPure, m, work, it);
    }
  }

  lemma CriticalStays(blocks: seq<BasicBlock>, isPure: FuncInfo.Marks, m: set<Instruction>, m': set<Instruction>)
    requires m <= m' && forall it {:trigger CriticalIn(blocks, isPure, it)} :: CriticalIn(blocks, isPure, it) ==>
             it in m
    ensures forall it {:trigger CriticalIn(blocks, isPure, it)} :: CriticalIn(blocks, isPure, it) ==> it in m'
  {
  }

  lemma LessLeft(u: set<Instruction>, m: set<Instruction>, m': set<Instruction>)
    requires m <= u && m' <= u
    ensures m < m' ==> u - m' < u - m
  {
    if m < m' {
      var x :| x in m' && x !in m;
      assert x in u - m && x !in u - m';
    }
  }
}
