/** Which functions are pure: a worklist that spreads impurity from callees to callers. */
module FuncInfo {
  import opened Ir
  import opened Programs

  // ----- Where an address comes from -----

  predicate PointerTyped(fn: Function, o: Operand) {
    match o
    case Imm(_) => false
    case BitImm(_) => false
    case FloatImm(_) => false
    case Arg(i) => i < |fn.params| && fn.params[i].PointerParam?
    case Global(_) => true
    case Ref(d) => d in fn.pointers
  }

  /** Addresses do not go round in circles: what an address is computed from was created before it. */
  ghost predicate Ranked(fn: Function, defs: Definitions, rank: map<Name, nat>) {
    forall d :: d in defs ==>
      && d in rank
      && forall o :: o in AllOperands(defs[d]) && o.Ref? && o.name in defs && IsAddressStep(fn, defs[d], o) ==>
           o.name in rank && rank[o.name] < rank[d]
  }

  /** `get_first_addr` may go on from the definition to this operand. */
  predicate IsAddressStep(fn: Function, d: Instruction, o: Operand) {
    if d.Plain? && d.ins.Gep? then o == d.ins.base
    else !(d.Plain? && (d.ins.Alloca? || d.ins.Load?)) && PointerTyped(fn, o)
  }

  function FirstPointer(fn: Function, os: seq<Operand>): (r: Option<Operand>)
    ensures r.Some? ==> r.value in os && PointerTyped(fn, r.value)
  {
    if os == [] then None
    else if PointerTyped(fn, os[0]) then Some(os[0])
    else FirstPointer(fn, os[1..])
  }

  /** The operand an address is computed from. */
  ghost function FirstAddr(fn: Function, defs: Definitions, rank: map<Name, nat>, o: Operand): Operand
    requires Ranked(fn, defs, rank)
    decreases if o.Ref? && o.name in defs then rank[o.name] + 1 else 0
  {
    if !(o.Ref? && o.name in defs) then o
    else
      match defs[o.name]
      case Plain(Alloca(_)) => o
      case Plain(Gep(_, base, _)) => FirstAddr(fn, defs, rank, base)
      case Plain(Load(_, _)) => o
      case d =>
        var p := FirstPointer(fn, AllOperands(d));
        if p.Some? then FirstAddr(fn, defs, rank, p.value) else o
  }

  /** o' is what the address o is computed from in one step: the base of a getelementptr, or the first
      address among the operands of anything but an alloca or a load. */
  ghost predicate ComputedFrom(fn: Function, defs: Definitions, o: Operand, o': Operand) {
    && o.Ref? && o.name in defs
    && match defs[o.name]
       case Plain(Alloca(_)) => false
       case Plain(Load(_, _)) => false
       case Plain(Gep(_, base, _)) => o' == base
       case d => exists k :: IsFirstPointer(fn, AllOperands(d), k) && AllOperands(d)[k] == o'
  }

  ghost predicate IsFirstPointer(fn: Function, os: seq<Operand>, k: int) {
    0 <= k < |os| && PointerTyped(fn, os[k]) && forall j :: 0 <= j < k ==> !PointerTyped(fn, os[j])
  }

  /** Computed from nothing else: not a result of the function, an alloca, a load, or without operands
      that are addresses. */
  ghost predicate IsOrigin(fn: Function, defs: Definitions, o: Operand) {
    o.Ref? && o.name in defs ==>
      match defs[o.name]
      case Plain(Alloca(_)) => true
      case Plain(Load(_, _)) => true
      case Plain(Gep(_, _, _)) => false
      case d => forall k :: 0 <= k < |AllOperands(d)| ==> !PointerTyped(fn, AllOperands(d)[k])
  }

  ghost predicate AddressPath(fn: Function, defs: Definitions, path: seq<Operand>) {
    path != [] && forall i {:trigger path[i]} :: 0 < i < |path| ==> ComputedFrom(fn, defs, path[i - 1], path[i])
  }

  /** Going back step by step from o one gets to r, and no further. */
  ghost predicate OriginOf(fn: Function, defs: Definitions, o: Operand, r: Operand) {
    IsOrigin(fn, defs, r) && exists path :: AddressPath(fn, defs, path) && path[0] == o && path[|path| - 1] == r
  }

  lemma {:induction false} FirstPointerIs(fn: Function, os: seq<Operand>)
    ensures var p := FirstPointer(fn, os);
            if p.Some? then exists k :: IsFirstPointer(fn, os, k) && os[k] == p.value
            else forall k :: 0 <= k < |os| ==> !PointerTyped(fn, os[k])
  {
    if os != [] {
      if PointerTyped(fn, os[0]) {
        assert IsFirstPointer(fn, os, 0);
      } else {
        FirstPointerIs(fn, os[1..]);
        if FirstPointer(fn, os).Some? {
          var k :| IsFirstPointer(fn, os[1..], k) && os[1..][k] == FirstPointer(fn, os).value;
          FirstPointerLater(fn, os, k);
        }
      }
    }
  }

  lemma FirstPointerLater(fn: Function, os: seq<Operand>, k: int)
    requires os != [] && !PointerTyped(fn, os[0]) && IsFirstPointer(fn, os[1..], k)
    ensures IsFirstPointer(fn, os, k + 1) && os[k + 1] == os[1..][k]
  {
    forall j | 0 <= j < k + 1
      ensures !PointerTyped(fn, os[j])
    {
      if j > 0 { assert os[1..][j - 1] == os[j]; }
    }
  }

  lemma OriginFurther(fn: Function, defs: Definitions, o: Operand, o': Operand, r: Operand)
    requires ComputedFrom(fn, defs, o, o') && OriginOf(fn, defs, o', r)
    ensures OriginOf(fn, defs, o, r)
  {
    hide ComputedFrom, IsOrigin;
    var path :| AddressPath(fn, defs, path) && path[0] == o' && path[|path| - 1] == r;
    var longer := [o] + path;
    forall i | 0 < i < |longer|
      ensures ComputedFrom(fn, defs, longer[i - 1], longer[i])
    {
      if i > 1 { assert longer[i - 1] == path[i - 2] && longer[i] == path[i - 1]; }
    }
    assert AddressPath(fn, defs, longer);
  }

  /** The recursion ends where an address comes from. */
  lemma {:induction false} FirstAddrIsOrigin(fn: Function, defs: Definitions, rank: map<Name, nat>, o: Operand)
    requires Ranked(fn, defs, rank)
    ensures OriginOf(fn, defs, o, FirstAddr(fn, defs, rank, o))
    decreases if o.Ref? && o.name in defs then rank[o.name] + 1 else 0
  {
    assert AddressPath(fn, defs, [o]);
    if o.Ref? && o.name in defs {
      var d := defs[o.name];
      if d.Plain? && d.ins.Gep? {
        FirstAddrIsOrigin(fn, defs, rank, d.ins.base);
        OriginFurther(fn, defs, o, d.ins.base, FirstAddr(fn, defs, rank, o));
      } else if !(d.Plain? && (d.ins.Alloca? || d.ins.Load?)) {
        FirstPointerIs(fn, AllOperands(d));
        var p := FirstPointer(fn, AllOperands(d));
        if p.Some? {
          FirstAddrIsOrigin(fn, defs, rank, p.value);
          OriginFurther(fn, defs, o, p.value, FirstAddr(fn, defs, rank, o));
        }
      }
    }
  }

  lemma FirstPointersEqual(fn: Function, os: seq<Operand>, j: int, k: int)
    requires IsFirstPointer(fn, os, j) && IsFirstPointer(fn, os, k)
    ensures j == k
  {
  }

  lemma StepUnique(fn: Function, defs: Definitions, o: Operand, a: Operand, b: Operand)
    requires ComputedFrom(fn, defs, o, a) && ComputedFrom(fn, defs, o, b)
    ensures a == b && !IsOrigin(fn, defs, o)
  {
    var d := defs[o.name];
    if !(d.Plain? && d.ins.Gep?) {
      var j :| IsFirstPointer(fn, AllOperands(d), j) && AllOperands(d)[j] == a;
      var k :| IsFirstPointer(fn, AllOperands(d), k) && AllOperands(d)[k] == b;
      FirstPointersEqual(fn, AllOperands(d), j, k);
    }
  }

  /** An address has one origin. */
  lemma {:induction false} OriginUnique(fn: Function, defs: Definitions, p: seq<Operand>, q: seq<Operand>)
    requires AddressPath(fn, defs, p) && AddressPath(fn, defs, q) && p[0] == q[0]
    requires IsOrigin(fn, defs, p[|p| - 1]) && IsOrigin(fn, defs, q[|q| - 1])
    ensures p == q
    decreases |p|
  {
    hide ComputedFrom, IsOrigin;
    if |p| > 1 {
      assert ComputedFrom(fn, defs, p[1 - 1], p[1]);
      StepUnique(fn, defs, p[0], p[1], p[1]);
    }
    if |q| > 1 {
      assert ComputedFrom(fn, defs, q[1 - 1], q[1]);
      StepUnique(fn, defs, q[0], q[1], q[1]);
    }
    if |p| > 1 && |q| > 1 {
      StepUnique(fn, defs, p[0], p[1], q[1]);
      RestIsPath(fn, defs, p);
      RestIsPath(fn, defs, q);
      OriginUnique(fn, defs, p[1..], q[1..]);
      assert p == [p[0]] + p[1..] && q == [q[0]] + q[1..];
    }
  }

  lemma RestIsPath(fn: Function, defs: Definitions, p: seq<Operand>)
    requires AddressPath(fn, defs, p) && |p| > 1
    ensures AddressPath(fn, defs, p[1..])
  {
    hide ComputedFrom;
    var q := p[1..];
    forall i | 0 < i < |q|
      ensures ComputedFrom(fn, defs, q[i - 1], q[i])
    {
      assert q[i - 1] == p[i] && q[i] == p[i + 1];
      assert ComputedFrom(fn, defs, p[i + 1 - 1], p[i + 1]);
    }
  }

  ghost predicate LocalAddress(fn: Function, defs: Definitions, rank: map<Name, nat>, o: Operand)
    requires Ranked(fn, defs, rank)
  {
    var a := FirstAddr(fn, defs, rank, o);
    a.Ref? && a.name in defs && defs[a.name].Plain? && defs[a.name].ins.Alloca?
  }

  ghost predicate SideEffect(fn: Function, defs: Definitions, rank: map<Name, nat>, ins: Instr)
    requires Ranked(fn, defs, rank)
  {
    (ins.Load? || ins.Store?) && !LocalAddress(fn, defs, rank, ins.ptr)
  }

  // ----- Purity -----

  /** All functions with their definitions by name. */
  ghost predicate TablesOk(P: Program, defs: seq<Definitions>, ranks: seq<map<Name, nat>>) {
    |defs| == |ranks| == |P| && forall f {:trigger defs[f]} :: 0 <= f < |P| ==> Ranked(P[f], defs[f], ranks[f])
  }

  ghost predicate EffectAt(P: Program, defs: seq<Definitions>, ranks: seq<map<Name, nat>>, f: nat, b: nat, i: nat)
    requires TablesOk(P, defs, ranks) && f < |P|
  {
    b < |P[f].blocks| && i < |P[f].blocks[b].body| && SideEffect(P[f], defs[f], ranks[f], P[f].blocks[b].body[i])
  }

  /** Impure by itself: a declaration, main, an array parameter, or an access to memory that is not local. */
  ghost predicate TriviallyImpure(P: Program, defs: seq<Definitions>, ranks: seq<map<Name, nat>>, f: nat)
    requires TablesOk(P, defs, ranks) && f < |P|
  {
    || P[f].declared || P[f].main
    || (exists i :: 0 <= i < |P[f].params| && P[f].params[i].PointerParam?)
    || (exists b, i :: EffectAt(P, defs, ranks, f, b, i))
  }

  /** Some chain of calls from f ends in a function that is impure by itself. */
  ghost predicate ReachesImpure(P: Program, defs: seq<Definitions>, ranks: seq<map<Name, nat>>, f: nat)
    requires TablesOk(P, defs, ranks)
  {
    exists g: nat, p :: g < |P| && CallPath(P, p, f, g) && TriviallyImpure(P, defs, ranks, g)
  }

  ghost predicate DefinedAs(defs: Definitions, o: Operand, ins: Instr) {
    o.Ref? && o.name in defs && defs[o.name] == Plain(ins)
  }

  ghost predicate AllocaResult(defs: Definitions, o: Operand) {
    exists d :: DefinedAs(defs, o, Alloca(d))
  }

  /** A variable of the function, or an element of one of its arrays. */
  ghost predicate OwnAddress(fn: Function, defs: Definitions, o: Operand) {
    || AllocaResult(defs, o)
    || exists d, base, idxs ::
         DefinedAs(defs, o, Gep(d, base, idxs)) && PointerTyped(fn, base) && AllocaResult(defs, base)
  }

  /** Loads and stores of the function access its own variables and arrays only, and it calls nothing. */
  ghost predicate Selfcontained(fn: Function, defs: Definitions) {
    forall b, i {:trigger fn.blocks[b].body[i]} :: 0 <= b < |fn.blocks| && 0 <= i < |fn.blocks[b].body| ==>
      var ins := fn.blocks[b].body[i];
      !ins.Call? && (ins.Load? || ins.Store? ==> OwnAddress(fn, defs, ins.ptr))
  }

  /** Nothing else makes a function impure: a defined one other than main, without array parameters, that
      accesses its own variables and arrays only and calls nothing, is pure. */
  lemma PlainIsPure(P: Program, defs: seq<Definitions>, ranks: seq<map<Name, nat>>, f: nat)
    requires TablesOk(P, defs, ranks) && f < |P| && !P[f].declared && !P[f].main && Selfcontained(P[f], defs[f])
    requires forall i :: 0 <= i < |P[f].params| ==> P[f].params[i].IntParam? || P[f].params[i].FloatParam?
    ensures !ReachesImpure(P, defs, ranks, f)
  {
    hide Ranked;
    if ReachesImpure(P, defs, ranks, f) {
      var g: nat, p :| g < |P| && CallPath(P, p, f, g) && TriviallyImpure(P, defs, ranks, g);
      if |p| > 1 {
        NextCalled(P, p, f, g);
      } else {
        OwnAccess(P, defs, ranks, f);
      }
    }
  }

  lemma NextCalled(P: Program, p: seq<nat>, f: nat, g: nat)
    requires CallPath(P, p, f, g) && |p| > 1
    ensures Calls(P, f, p[1])
  {
    assert CallsNext(P, p, 0);
  }

  lemma OwnIsLocal(fn: Function, defs: Definitions, rank: map<Name, nat>, o: Operand)
    requires Ranked(fn, defs, rank) && OwnAddress(fn, defs, o)
    ensures LocalAddress(fn, defs, rank, o)
  {
    if AllocaResult(defs, o) {
      AllocaIsFirst(fn, defs, rank, o);
    } else {
      var d, base, idxs :| DefinedAs(defs, o, Gep(d, base, idxs)) && PointerTyped(fn, base) && AllocaResult(defs, base);
      assert AllOperands(defs[o.name])[0] == base;
      AllocaIsFirst(fn, defs, rank, base);
    }
  }

  lemma AllocaIsFirst(fn: Function, defs: Definitions, rank: map<Name, nat>, o: Operand)
    requires Ranked(fn, defs, rank) && AllocaResult(defs, o)
    ensures FirstAddr(fn, defs, rank, o) == o && LocalAddress(fn, defs, rank, o)
  {
  }

  lemma OwnAccess(P: Program, defs: seq<Definitions>, ranks: seq<map<Name, nat>>, f: nat)
    requires TablesOk(P, defs, ranks) && f < |P| && Selfcontained(P[f], defs[f])
    ensures forall b: nat, i: nat :: !EffectAt(P, defs, ranks, f, b, i)
  {
    forall b: nat, i: nat
      ensures !EffectAt(P, defs, ranks, f, b, i)
    {
      if b < |P[f].blocks| && i < |P[f].blocks[b].body| {
        var ins := P[f].blocks[b].body[i];
        if ins.Load? || ins.Store? { OwnIsLocal(P[f], defs[f], ranks[f], ins.ptr); }
      }
    }
  }

  /** The use lists of the functions: g is in the list of f if and only if it calls f. */
  ghost predicate UsesOk(P: Program, uses: seq<seq<nat>>) {
    && |uses| == |P|
    && (forall f, g: nat :: 0 <= f < |P| ==> (g in uses[f] <==> Calls(P, g, f)))
  }

  lemma CallStep(P: Program, defs: seq<Definitions>, ranks: seq<map<Name, nat>>, g: nat, f: nat)
    requires TablesOk(P, defs, ranks) && Calls(P, g, f) && ReachesImpure(P, defs, ranks, f)
    ensures ReachesImpure(P, defs, ranks, g)
  {
    var e: nat, p :| e < |P| && CallPath(P, p, f, e) && TriviallyImpure(P, defs, ranks, e);
    var q := [g] + p;
    forall i | 0 <= i < |q| - 1
      ensures CallsNext(P, q, i)
    {
      if i > 0 {
        assert CallsNext(P, p, i - 1);
      }
    }
    assert CallPath(P, q, g, e);
  }

  lemma ImpureItself(P: Program, defs: seq<Definitions>, ranks: seq<map<Name, nat>>, f: nat)
    requires TablesOk(P, defs, ranks) && f < |P| && TriviallyImpure(P, defs, ranks, f)
    ensures ReachesImpure(P, defs, ranks, f)
  {
    assert CallPath(P, [f], f, f);
  }

  // ----- The worklist -----

  type Marks = map<nat, bool>

  predicate Impure(isPure: Marks, f: nat) {
    f in isPure && !isPure[f]
  }

  /** The functions put into the worklist so far: each of the set once. */
  ghost predicate PushedOnce(pushed: seq<nat>, queued: set<nat>) {
    && (forall f :: f in pushed <==> f in queued)
    && forall j, k :: 0 <= j < k < |pushed| ==> pushed[j] != pushed[k]
  }

  lemma PushOnce(pushed: seq<nat>, queued: set<nat>, f: nat)
    requires PushedOnce(pushed, queued) && f !in queued
    ensures PushedOnce(pushed + [f], queued + {f})
  {
    var p := pushed + [f];
    forall j, k | 0 <= j < k < |p|
      ensures p[j] != p[k]
    {
      assert p[j] == pushed[j] && pushed[j] in queued;
    }
  }

  /** What the marks mean while the worklist is processed: impurity is justified, and has been
      passed on to callers except from functions still in the worklist. */
  ghost predicate Spreading(P: Program, defs: seq<Definitions>, ranks: seq<map<Name, nat>>, isPure: Marks,
      work: seq<nat>, queued: set<nat>)
    requires TablesOk(P, defs, ranks)
  {
    && (forall f: nat :: f in isPure <==> f < |P|)
    && (forall f: nat :: f < |P| && TriviallyImpure(P, defs, ranks, f) ==> Impure(isPure, f))
    && (forall f: nat :: f in queued <==> Impure(isPure, f))
    && (forall f: nat :: Impure(isPure, f) ==> ReachesImpure(P, defs, ranks, f))
    && (forall f :: f in work ==> f in queued)
    && (forall j, k :: 0 <= j < k < |work| ==> work[j] != work[k])
    && (forall f: nat, g: nat {:trigger Calls(P, g, f)} :: Impure(isPure, f) && f !in work && Calls(P, g, f) ==>
      Impure(isPure, g))
  }

  lemma {:induction false} ImpureSpreads(P: Program, defs: seq<Definitions>, ranks: seq<map<Name, nat>>, isPure: Marks,
      queued: set<nat>, p: seq<nat>, f: nat, g: nat)
    requires TablesOk(P, defs, ranks) && Spreading(P, defs, ranks, isPure, [], queued)
    requires g < |P| && CallPath(P, p, f, g) && TriviallyImpure(P, defs, ranks, g)
    ensures Impure(isPure, f)
    decreases |p|
  {
    if |p| > 1 {
      var q := p[1..];
      forall i | 0 <= i < |q| - 1
        ensures CallsNext(P, q, i)
      {
        assert CallsNext(P, p, i + 1);
      }
      assert CallsNext(P, p, 0);
      ImpureSpreads(P, defs, ranks, isPure, queued, q, p[1], g);
    }
  }

  lemma SpreadDone(P: Program, defs: seq<Definitions>, ranks: seq<map<Name, nat>>, isPure: Marks, queued: set<nat>)
    requires TablesOk(P, defs, ranks) && Spreading(P, defs, ranks, isPure, [], queued)
    ensures forall f: nat :: f in isPure <==> f < |P|
    ensures forall f: nat :: f in isPure ==> (isPure[f] <==> !ReachesImpure(P, defs, ranks, f))
    ensures forall f: nat :: f in queued <==> Impure(isPure, f)
  {
    forall f: nat | f < |P| && ReachesImpure(P, defs, ranks, f)
      ensures Impure(isPure, f)
    {
      var g: nat, p :| g < |P| && CallPath(P, p, f, g) && TriviallyImpure(P, defs, ranks, g);
      ImpureSpreads(P, defs, ranks, isPure, queued, p, f, g);
    }
  }

  // Steps of the worklist.

  /** The functions before `f` have been looked at on their own. */
  ghost predicate Marking(P: Program, defs: seq<Definitions>, ranks: seq<map<Name, nat>>, isPure: Marks,
      work: seq<nat>, queued: set<nat>, n: nat)
    requires TablesOk(P, defs, ranks)
  {
    && n <= |P|
    && (forall f: nat :: f in isPure <==> f < n)
    && (forall f: nat :: f < n ==> (Impure(isPure, f) <==> TriviallyImpure(P, defs, ranks, f)))
    && (forall f: nat :: f in queued <==> Impure(isPure, f))
    && (forall f: nat :: f in work <==> f in queued)
    && (forall j, k :: 0 <= j < k < |work| ==> work[j] != work[k])
  }

  lemma MarkingStep(P: Program, defs: seq<Definitions>, ranks: seq<map<Name, nat>>, isPure: Marks, work: seq<nat>,
      queued: set<nat>, f: nat, v: bool)
    requires TablesOk(P, defs, ranks) && Marking(P, defs, ranks, isPure, work, queued, f) && f < |P|
    requires v <==> !TriviallyImpure(P, defs, ranks, f)
    ensures f !in queued
    ensures v ==> Marking(P, defs, ranks, isPure[f := v], work, queued, f + 1)
    ensures !v ==> Marking(P, defs, ranks, isPure[f := v], work + [f], queued + {f}, f + 1)
  {
  }

  lemma MarkingDone(P: Program, defs: seq<Definitions>, ranks: seq<map<Name, nat>>, isPure: Marks, work: seq<nat>,
      queued: set<nat>)
    requires TablesOk(P, defs, ranks) && Marking(P, defs, ranks, isPure, work, queued, |P|)
    ensures Spreading(P, defs, ranks, isPure, work, queued)
  {
    forall f: nat | Impure(isPure, f)
      ensures ReachesImpure(P, defs, ranks, f)
    {
      ImpureItself(P, defs, ranks, f);
    }
  }

  /** The first k users of f, which has left the worklist, have been looked at. */
  ghost predicate Processing(P: Program, defs: seq<Definitions>, ranks: seq<map<Name, nat>>, uses: seq<seq<nat>>,
                             isPure: Marks, work: seq<nat>, queued: set<nat>, f: nat, k: nat)
    requires TablesOk(P, defs, ranks)
  {
    && UsesOk(P, uses) && f < |P| && k <= |uses[f]|
    && f in queued && f !in work && Spreading(P, defs, ranks, isPure, [f] + work, queued)
    && AllImpure(isPure, uses[f][..k])
  }

  ghost predicate AllImpure(isPure: Marks, fs: seq<nat>) {
    forall g :: g in fs ==> Impure(isPure, g)
  }

  lemma AllImpureNext(isPure: Marks, users: seq<nat>, k: nat, g: nat)
    requires k < |users| && g == users[k] && AllImpure(isPure, users[..k])
    ensures AllImpure(isPure[g := false], users[..k + 1])
    ensures Impure(isPure, g) ==> AllImpure(isPure, users[..k + 1])
  {
    assert users[..k + 1] == users[..k] + [g];
  }

  lemma ProcessBegins(P: Program, defs: seq<Definitions>, ranks: seq<map<Name, nat>>, uses: seq<seq<nat>>,
      isPure: Marks, work: seq<nat>, queued: set<nat>)
    requires TablesOk(P, defs, ranks) && Spreading(P, defs, ranks, isPure, work, queued) && work != []
    requires UsesOk(P, uses)
    ensures Processing(P, defs, ranks, uses, isPure, work[1..], queued, work[0], 0)
  {
    assert work == [work[0]] + work[1..];
    assert work[0] in work;
    forall j | 0 <= j < |work[1..]|
      ensures work[1..][j] != work[0]
    {
      assert work[1..][j] == work[j + 1];
    }
  }

  lemma ProcessStep(P: Program, defs: seq<Definitions>, ranks: seq<map<Name, nat>>, uses: seq<seq<nat>>,
                    isPure: Marks, work: seq<nat>, queued: set<nat>, f: nat, k: nat, g: nat)
    requires TablesOk(P, defs, ranks) && Processing(P, defs, ranks, uses, isPure, work, queued, f, k)
    requires k < |uses[f]| && g == uses[f][k]
    ensures g in isPure && g < |P|
    ensures isPure[g] ==>
            g !in queued && Processing(P, defs, ranks, uses, isPure[g := false], work + [g], queued + {g}, f, k + 1)
    ensures !isPure[g] ==> Processing(P, defs, ranks, uses, isPure, work, queued, f, k + 1)
  {
    ProcessFacts(P, defs, ranks, uses, isPure, work, queued, f, k);
    AllImpureNext(isPure, uses[f], k, g);
    hide Spreading, ReachesImpure, AllImpure;
    if isPure[g] {
      CallStep(P, defs, ranks, g, f);
      SpreadBehind(P, defs, ranks, isPure, f, work, queued, g);
    }
  }

  lemma SpreadBehind(P: Program, defs: seq<Definitions>, ranks: seq<map<Name, nat>>, isPure: Marks, f: nat,
      work: seq<nat>, queued: set<nat>, g: nat)
    requires TablesOk(P, defs, ranks) && Spreading(P, defs, ranks, isPure, [f] + work, queued) && g < |P|
    requires g in isPure && isPure[g]
    requires ReachesImpure(P, defs, ranks, g) && f !in work && f != g
    ensures g !in queued && f !in work + [g]
    ensures Spreading(P, defs, ranks, isPure[g := false], [f] + (work + [g]), queued + {g})
  {
    hide Spreading, ReachesImpure, TablesOk;
    SpreadMore(P, defs, ranks, isPure, [f] + work, queued, g);
    assert [f] + work + [g] == [f] + (work + [g]);
  }

  lemma ProcessFacts(P: Program, defs: seq<Definitions>, ranks: seq<map<Name, nat>>, uses: seq<seq<nat>>,
                     isPure: Marks, work: seq<nat>, queued: set<nat>, f: nat, k: nat)
    requires TablesOk(P, defs, ranks) && Processing(P, defs, ranks, uses, isPure, work, queued, f, k) && k < |uses[f]|
    ensures var g := uses[f][k];
            && g < |P| && g in isPure && Calls(P, g, f) && ReachesImpure(P, defs, ranks, f)
            && (isPure[g] ==> g != f) && (!isPure[g] ==> Impure(isPure, g))
  {
    var g := uses[f][k];
    assert g in uses[f] && Calls(P, g, f);
    var b, i :| CallsAt(P, g, f, b, i);
  }

  lemma SpreadMore(P: Program, defs: seq<Definitions>, ranks: seq<map<Name, nat>>, isPure: Marks, work: seq<nat>,
      queued: set<nat>, g: nat)
    requires TablesOk(P, defs, ranks) && Spreading(P, defs, ranks, isPure, work, queued) && g < |P| && isPure[g]
    requires ReachesImpure(P, defs, ranks, g)
    ensures g !in queued && Spreading(P, defs, ranks, isPure[g := false], work + [g], queued + {g})
  {
    var w, isPure' := work + [g], isPure[g := false];
    forall f: nat, e: nat | Impure(isPure', f) && f !in w && Calls(P, e, f)
      ensures Impure(isPure', e)
    {
      assert w[|work|] == g;
      assert forall j :: 0 <= j < |work| ==> w[j] == work[j];
    }
  }

  lemma ProcessEnds(P: Program, defs: seq<Definitions>, ranks: seq<map<Name, nat>>, uses: seq<seq<nat>>,
                    isPure: Marks, work: seq<nat>, queued: set<nat>, f: nat)
    requires TablesOk(P, defs, ranks) && UsesOk(P, uses) && f < |P|
    requires Processing(P, defs, ranks, uses, isPure, work, queued, f, |uses[f]|)
    ensures Spreading(P, defs, ranks, isPure, work, queued)
  {
    assert uses[f][..|uses[f]|] == uses[f];
    TailDistinct(f, work);
    forall e: nat, g: nat | Impure(isPure, e) && e !in work && Calls(P, g, e)
      ensures Impure(isPure, g)
    {
      CallerImpure(P, defs, ranks, uses, isPure, work, queued, f, e, g);
    }
    hide Impure, TriviallyImpure, ReachesImpure, UsesOk, Calls;
    forall g | g in work
      ensures g in queued
    {
      assert g in [f] + work;
    }
  }

  lemma TailDistinct(f: nat, work: seq<nat>)
    requires var w := [f] + work; forall j, k :: 0 <= j < k < |w| ==> w[j] != w[k]
    ensures forall j, k :: 0 <= j < k < |work| ==> work[j] != work[k]
  {
    var w := [f] + work;
    forall j, k | 0 <= j < k < |work|
      ensures work[j] != work[k]
    {
      assert w[j + 1] == work[j] && w[k + 1] == work[k];
    }
  }

  lemma CallerImpure(P: Program, defs: seq<Definitions>, ranks: seq<map<Name, nat>>, uses: seq<seq<nat>>,
                     isPure: Marks, work: seq<nat>, queued: set<nat>, f: nat, e: nat, g: nat)
    requires TablesOk(P, defs, ranks) && UsesOk(P, uses) && f < |P|
    requires Processing(P, defs, ranks, uses, isPure, work, queued, f, |uses[f]|)
    requires Impure(isPure, e) && e !in work && Calls(P, g, e)
    ensures Impure(isPure, g)
  {
    assert uses[f][..|uses[f]|] == uses[f];
    if e == f {
      assert g in uses[f];
    } else {
      assert e !in [f] + work;
    }
  }

  class Analysis {
    const P: Program
    const defs: seq<Definitions>
    const uses: seq<seq<nat>>
    ghost const ranks: seq<map<Name, nat>>
    var worklist: seq<nat>
    var isPure: Marks
    ghost var queued: set<nat>     // every function that has ever been put into the worklist
    ghost var pushed: seq<nat>     // the same, in order

    constructor (P: Program, defs: seq<Definitions>, uses: seq<seq<nat>>, ghost ranks: seq<map<Name, nat>>)
      ensures this.P == P && this.defs == defs && this.uses == uses && this.ranks == ranks
      ensures worklist == [] && isPure == map[] && queued == {} && pushed == []
    {
      this.P, this.defs, this.uses, this.ranks := P, defs, uses, ranks;
      worklist, isPure, queued, pushed := [], map[], {}, [];
    }

    method GetFirstAddr(f: nat, val: Operand) returns (r: Operand)
      requires TablesOk(P, defs, ranks) && f < |P|
      ensures OriginOf(P[f], defs[f], val, r)
      ensures r == FirstAddr(P[f], defs[f], ranks[f], val)
      decreases if val.Ref? && val.name in defs[f] then ranks[f][val.name] + 1 else 0
    {
      assert Ranked(P[f], defs[f], ranks[f]);
      FirstAddrIsOrigin(P[f], defs[f], ranks[f], val);
      hide OriginOf;
      if val.Ref? && val.name in defs[f] {
        var def := defs[f][val.name];
        if def.Plain? && (def.ins.Alloca? || def.ins.Load?) {
          return val;
        }
        if def.Plain? && def.ins.Gep? {
          assert def.ins.base in Operands(def.ins);
          r := GetFirstAddr(f, def.ins.base);
          return;
        }
        var os := AllOperands(def);
        assert os[0..] == os;
        for i := 0 to |os|
          invariant FirstPointer(P[f], os) == FirstPointer(P[f], os[i..])
        {
          assert os[i..][0] == os[i] && os[i..][1..] == os[i + 1..];
          if PointerTyped(P[f], os[i]) {
            r := GetFirstAddr(f, os[i]);
            return;
          }
        }
        assert FirstPointer(P[f], []) == None;
      }
      return val;
    }

    method IsLocal(f: nat, ptr: Operand) returns (r: bool)
      requires TablesOk(P, defs, ranks) && f < |P|
      ensures assert Ranked(P[f], defs[f], ranks[f]); r <==> LocalAddress(P[f], defs[f], ranks[f], ptr)
    {
      var a := GetFirstAddr(f, ptr);
      r := a.Ref? && a.name in defs[f] && defs[f][a.name].Plain? && defs[f][a.name].ins.Alloca?;
    }

    method IsSideEffectInst(f: nat, ins: Instr) returns (r: bool)
      requires TablesOk(P, defs, ranks) && f < |P|
      ensures assert Ranked(P[f], defs[f], ranks[f]); r <==> SideEffect(P[f], defs[f], ranks[f], ins)
    {
      if ins.Store? || ins.Load? {
        var l := IsLocal(f, ins.ptr);
        return !l;
      }
      // The effects of calls are found by the worklist.
      return false;
    }

    method TrivialMark(f: nat)
      requires TablesOk(P, defs, ranks) && f < |P|
      modifies this`isPure
      ensures isPure == old(isPure)[f := !TriviallyImpure(P, defs, ranks, f)]
    {
      var fn := P[f];
      if fn.declared || fn.main {
        isPure := isPure[f := false];
        return;
      }
      for i := 0 to |fn.params|
        invariant isPure == old(isPure) && forall j :: 0 <= j < i ==> !fn.params[j].PointerParam?
      {
        if fn.params[i].PointerParam? {
          isPure := isPure[f := false];
          return;
        }
      }
      for b := 0 to |fn.blocks|
        invariant isPure == old(isPure) && forall c: nat, i: nat :: c < b ==> !EffectAt(P, defs, ranks, f, c, i)
      {
        var body := fn.blocks[b].body;
        for i := 0 to |body|
          invariant isPure == old(isPure) && forall j: nat :: j < i ==> !EffectAt(P, defs, ranks, f, b, j)
        {
          var bad := IsSideEffectInst(f, body[i]);
          if bad {
            assert EffectAt(P, defs, ranks, f, b, i);
            isPure := isPure[f := false];
            return;
          }
        }
      }
      isPure := isPure[f := true];
    }

    method Process(f: nat)
      requires TablesOk(P, defs, ranks) && UsesOk(P, uses) && f < |P|
      requires Processing(P, defs, ranks, uses, isPure, worklist, queued, f, 0) && PushedOnce(pushed, queued)
      modifies this`worklist, this`isPure, this`queued, this`pushed
      ensures Spreading(P, defs, ranks, isPure, worklist, queued) && PushedOnce(pushed, queued)
      ensures old(queued) <= queued && |worklist| - |queued| <= |old(worklist)| - |old(queued)|
      ensures forall g :: g in queued ==> g < |P|
    {
      hide Processing, Spreading, PushedOnce;
      for k := 0 to |uses[f]|
        invariant Processing(P, defs, ranks, uses, isPure, worklist, queued, f, k) && PushedOnce(pushed, queued)
        invariant old(queued) <= queued && |worklist| - |queued| <= |old(worklist)| - |old(queued)|
      {
        var g := uses[f][k];
        ProcessStep(P, defs, ranks, uses, isPure, worklist, queued, f, k, g);
        if isPure[g] {
          PushOnce(pushed, queued, g);
          isPure := isPure[g := false];
          worklist := worklist + [g];
          queued, pushed := queued + {g}, pushed + [g];
        }
      }
      ProcessEnds(P, defs, ranks, uses, isPure, worklist, queued, f);
      QueuedInside(P, defs, ranks, isPure, worklist, queued);
    }

    /** A function is pure if and only if no chain of calls from it ends in a function that is
        impure by itself. The impure functions are put into the worklist once each, and no others. */
    method Run()
      requires TablesOk(P, defs, ranks) && UsesOk(P, uses) && worklist == [] && isPure == map[] && queued == {}
      requires pushed == []
      modifies this
      ensures forall f: nat :: f in isPure <==> f < |P|
      ensures forall f: nat :: f in isPure ==> (isPure[f] <==> !ReachesImpure(P, defs, ranks, f))
      ensures PushedOnce(pushed, queued) && forall f: nat :: f in queued <==> Impure(isPure, f)
    {
      hide *;
      MarkingBegins(P, defs, ranks);
      for f := 0 to |P|
        invariant Marking(P, defs, ranks, isPure, worklist, queued, f) && PushedOnce(pushed, queued)
      {
        MarkingStep(P, defs, ranks, isPure, worklist, queued, f, !TriviallyImpure(P, defs, ranks, f));
        TrivialMark(f);
        if !isPure[f] {
          PushOnce(pushed, queued, f);
          worklist := worklist + [f];
          queued, pushed := queued + {f}, pushed + [f];
        }
      }
      MarkingDone(P, defs, ranks, isPure, worklist, queued);
      QueuedInside(P, defs, ranks, isPure, worklist, queued);
      while worklist != []
        invariant Spreading(P, defs, ranks, isPure, worklist, queued) && PushedOnce(pushed, queued) && forall g ::
                  g in queued ==> g < |P|
        decreases |P| - |queued| + |worklist|
      {
        QueuedSize(queued, |P|);
        ProcessBegins(P, defs, ranks, uses, isPure, worklist, queued);
        ghost var before, was := worklist, queued;
        var now := worklist[0];
        worklist := worklist[1..];
        NowInside(P, defs, ranks, uses, isPure, worklist, queued, now);
        Process(now);
        QueuedSize(queued, |P|);
      }
      SpreadDone(P, defs, ranks, isPure, queued);
    }
  }

  lemma MarkingBegins(P: Program, defs: seq<Definitions>, ranks: seq<map<Name, nat>>)
    requires TablesOk(P, defs, ranks)
    ensures Marking(P, defs, ranks, map[], [], {}, 0) && PushedOnce([], {})
  {
  }

  lemma QueuedInside(P: Program, defs: seq<Definitions>, ranks: seq<map<Name, nat>>, isPure: Marks, work: seq<nat>,
      queued: set<nat>)
    requires TablesOk(P, defs, ranks) && Spreading(P, defs, ranks, isPure, work, queued)
    ensures forall g :: g in queued ==> g < |P|
  {
  }

  lemma NowInside(P: Program, defs: seq<Definitions>, ranks: seq<map<Name, nat>>, uses: seq<seq<nat>>, isPure: Marks,
      work: seq<nat>, queued: set<nat>, f: nat)
    requires TablesOk(P, defs, ranks) && Processing(P, defs, ranks, uses, isPure, work, queued, f, 0)
    ensures f < |P|
  {
  }

  lemma QueuedSize(s: set<nat>, n: nat)
    requires forall x :: x in s ==> x < n
    ensures |s| <= n
  {
    if n > 0 {
      QueuedSize(s - {n - 1}, n - 1);
    } else {
      assert s == {};
    }
  }
}
