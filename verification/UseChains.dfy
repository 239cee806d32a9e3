/** What dead code elimination leaves, said by chains of uses: an instruction stays if and only if such a
    chain leads from it to a terminator, a store, or a call that may have an effect. */
module UseChains {
  import opened Ir
  import opened Programs
  import opened FuncInfo
  import opened DeadCode
  import opened DeadCodeMeaning

  /** Needed for its own sake. A callee without a definition is taken to have an effect. */
  ghost predicate IsRoot(P: Program, defs: seq<Definitions>, ranks: seq<map<Name, nat>>, it: Instruction)
    requires TablesOk(P, defs, ranks)
  {
    match it
    case End(_) => true
    case Join(_) => false
    case Plain(ins) => ins.Store? || (ins.Call? && (ins.callee < |P| ==> ReachesImpure(P, defs, ranks, ins.callee)))
  }

  /** The result of d is an operand of it. */
  ghost predicate UsesResult(table: Definitions, it: Instruction, d: Instruction) {
    exists o :: o in AllOperands(it) && o.Ref? && o.name in table && table[o.name] == d
  }

  /** Each uses the result of the one before it. */
  ghost predicate Chain(table: Definitions, p: seq<Instruction>) {
    forall i :: 0 <= i < |p| - 1 ==> UsesResult(table, p[i + 1], p[i])
  }

  ghost predicate ChainFrom(P: Program, defs: seq<Definitions>, ranks: seq<map<Name, nat>>, f: nat, p: seq<Instruction>,
      it: Instruction)
    requires TablesOk(P, defs, ranks) && f < |P|
  {
    && p != [] && p[0] == it && Chain(defs[f], p)
    && InBlocks(P[f].blocks, p[|p| - 1]) && IsRoot(P, defs, ranks, p[|p| - 1])
  }

  /** A chain of uses leads from the instruction to one that is needed for its own sake. */
  ghost predicate LeadsToRoot(P: Program, defs: seq<Definitions>, ranks: seq<map<Name, nat>>, f: nat, it: Instruction)
    requires TablesOk(P, defs, ranks) && f < |P|
  {
    exists p :: ChainFrom(P, defs, ranks, f, p, it)
  }

  lemma RootsAreCritical(P: Program, defs: seq<Definitions>, ranks: seq<map<Name, nat>>, isPure: Marks, it: Instruction)
    requires TablesOk(P, defs, ranks) && PurityExact(P, defs, ranks, isPure)
    ensures IsRoot(P, defs, ranks, it) <==> Critical(isPure, it)
  {
    hide ReachesImpure;
  }

  /** Everything on a chain is marked. */
  lemma {:induction false} ChainMarked(P: Program, defs: seq<Definitions>, ranks: seq<map<Name, nat>>, isPure: Marks,
      f: nat, p: seq<Instruction>, it: Instruction, m: set<Instruction>)
    requires TablesOk(P, defs, ranks) && PurityExact(P, defs, ranks, isPure) && f < |P|
    requires Closed(P[f].blocks, defs[f], isPure, m) && ChainFrom(P, defs, ranks, f, p, it)
    ensures it in m
    decreases |p|
  {
    hide PurityExact, IsRoot, InBlocks;
    if |p| == 1 {
      RootsAreCritical(P, defs, ranks, isPure, it);
      assert CriticalIn(P[f].blocks, isPure, it);
    } else {
      var q := p[1..];
      assert Chain(defs[f], q) by {
        forall i | 0 <= i < |q| - 1
          ensures UsesResult(defs[f], q[i + 1], q[i])
        {
          assert UsesResult(defs[f], p[i + 1 + 1], p[i + 1]);
        }
      }
      ChainMarked(P, defs, ranks, isPure, f, q, q[0], m);
      assert UsesResult(defs[f], p[0 + 1], p[0]) && OperandsIn(defs[f], m, p[1]);
    }
  }

  lemma OperandLeads(P: Program, defs: seq<Definitions>, ranks: seq<map<Name, nat>>, f: nat, it: Instruction,
      o: Operand)
    requires TablesOk(P, defs, ranks) && f < |P| && LeadsToRoot(P, defs, ranks, f, it)
    requires o in AllOperands(it) && o.Ref? && o.name in defs[f]
    ensures LeadsToRoot(P, defs, ranks, f, defs[f][o.name])
  {
    hide IsRoot, InBlocks;
    var d := defs[f][o.name];
    var p :| ChainFrom(P, defs, ranks, f, p, it);
    var q := [d] + p;
    assert UsesResult(defs[f], it, d);
    forall i | 0 <= i < |q| - 1
      ensures UsesResult(defs[f], q[i + 1], q[i])
    {
      if i > 0 { assert UsesResult(defs[f], p[i - 1 + 1], p[i - 1]); }
    }
    assert ChainFrom(P, defs, ranks, f, q, d);
  }

  /** What is marked is what chains lead from. */
  lemma MarkedIff(P: Program, defs: seq<Definitions>, ranks: seq<map<Name, nat>>, isPure: Marks, f: nat,
      m: set<Instruction>, it: Instruction)
    requires TablesOk(P, defs, ranks) && PurityExact(P, defs, ranks, isPure) && f < |P|
    requires Needed(P[f].blocks, defs[f], isPure, m)
    ensures it in m <==> LeadsToRoot(P, defs, ranks, f, it)
  {
    hide PurityExact, ChainFrom, InBlocks, Critical, IsRoot;
    var c := set x | x in m && LeadsToRoot(P, defs, ranks, f, x);
    forall x | CriticalIn(P[f].blocks, isPure, x)
      ensures x in c
    {
      RootLeads(P, defs, ranks, isPure, f, x);
    }
    forall x, o | x in c && o in AllOperands(x) && o.Ref? && o.name in defs[f]
      ensures defs[f][o.name] in c
    {
      OperandLeads(P, defs, ranks, f, x, o);
      assert OperandsIn(defs[f], m, x);
    }
    assert Closed(P[f].blocks, defs[f], isPure, c);
    if LeadsToRoot(P, defs, ranks, f, it) {
      var p :| ChainFrom(P, defs, ranks, f, p, it);
      ChainMarked(P, defs, ranks, isPure, f, p, it, m);
    }
  }

  lemma RootLeads(P: Program, defs: seq<Definitions>, ranks: seq<map<Name, nat>>, isPure: Marks, f: nat,
      it: Instruction)
    requires TablesOk(P, defs, ranks) && PurityExact(P, defs, ranks, isPure) && f < |P|
    requires CriticalIn(P[f].blocks, isPure, it)
    ensures LeadsToRoot(P, defs, ranks, f, it)
  {
    RootsAreCritical(P, defs, ranks, isPure, it);
    hide PurityExact, InBlocks, Critical, IsRoot;
    assert ChainFrom(P, defs, ranks, f, [it], it);
  }

  /** Of each function exactly those instructions are left from which chains lead. */
  ghost predicate OnlyNeeded(P: Program, defs: seq<Definitions>, ranks: seq<map<Name, nat>>, P': Program)
    requires TablesOk(P, defs, ranks)
  {
    |P'| == |P| && forall f, it {:trigger InBlocks(P'[f].blocks, it)} :: 0 <= f < |P| ==>
      (InBlocks(P'[f].blocks, it) <==> InBlocks(P[f].blocks, it) && LeadsToRoot(P, defs, ranks, f, it))
  }

  lemma SweptIsNeeded(P: Program, defs: seq<Definitions>, ranks: seq<map<Name, nat>>, isPure: Marks, P': Program)
    requires TablesOk(P, defs, ranks) && PurityExact(P, defs, ranks, isPure) && SweptProgram(P, P', defs, isPure)
    ensures OnlyNeeded(P, defs, ranks, P')
  {
    hide PurityExact, InBlocks, Needed, Sweep, LeadsToRoot;
    forall f, it {:trigger InBlocks(P'[f].blocks, it)} | 0 <= f < |P|
      ensures InBlocks(P'[f].blocks, it) <==> InBlocks(P[f].blocks, it) && LeadsToRoot(P, defs, ranks, f, it)
    {
      assert SweptFrom(P[f].blocks, P'[f].blocks, defs[f], isPure);
      var m :| Needed(P[f].blocks, defs[f], isPure, m) && P'[f].blocks == Sweep(P[f].blocks, m);
      NeededIsClosed(P[f].blocks, defs[f], isPure, m);
      SweepKeeps(P[f].blocks, defs[f], isPure, m, it);
      MarkedIff(P, defs, ranks, isPure, f, m, it);
    }
  }

  lemma NeededIsClosed(blocks: seq<BasicBlock>, defs: Definitions, isPure: Marks, m: set<Instruction>)
    requires Needed(blocks, defs, isPure, m)
    ensures Closed(blocks, defs, isPure, m)
  {
  }

  lemma ChainBegins(P: Program, defs: seq<Definitions>, ranks: seq<map<Name, nat>>, f: nat, p: seq<Instruction>,
      it: Instruction)
    requires TablesOk(P, defs, ranks) && f < |P| && ChainFrom(P, defs, ranks, f, p, it)
    ensures if |p| <= 1 then IsRoot(P, defs, ranks, it) else UsesResult(defs[f], p[1], it)
  {
    hide UsesResult, ReachesImpure, InBlocks;
    if |p| > 1 { assert UsesResult(defs[f], p[0 + 1], p[0]); }
  }

  /** A call of a pure function whose result is not used does not stay. */
  lemma UnusedCallGoes(P: Program, defs: seq<Definitions>, ranks: seq<map<Name, nat>>, P': Program, f: nat, ins: Instr)
    requires TablesOk(P, defs, ranks) && OnlyNeeded(P, defs, ranks, P') && f < |P|
    requires ins.Call? && ins.callee < |P| && !ReachesImpure(P, defs, ranks, ins.callee)
    requires forall it :: !UsesResult(defs[f], it, Plain(ins))
    ensures !InBlocks(P'[f].blocks, Plain(ins))
  {
    hide InBlocks, UsesResult, ReachesImpure, ChainFrom;
    if LeadsToRoot(P, defs, ranks, f, Plain(ins)) {
      var p :| ChainFrom(P, defs, ranks, f, p, Plain(ins));
      ChainBegins(P, defs, ranks, f, p, Plain(ins));
    }
  }
}
