/** Use lists of the results of a function, and what the removal of operands does to them. */
module UseLists {
  import opened Ir

  /** Operand i of an instruction. */
  type Use = (Instruction, nat)

  type Lists = map<Name, seq<Use>>

  ghost predicate UsedAt(it: Instruction, i: nat, d: Name) {
    i < |AllOperands(it)| && AllOperands(it)[i] == Ref(d)
  }

  /** (it, i) is in the list of d if and only if `it` is in the function and its operand i is d. */
  ghost predicate Agree(blocks: seq<BasicBlock>, uses: Lists) {
    forall d, it, i: nat {:trigger UsedAt(it, i, d)} :: d in uses ==>
      ((it, i) in uses[d] <==> InBlocks(blocks, it) && UsedAt(it, i, d))
  }

  // ----- Removal -----

  /** The uses that are not in `gone`, in order. */
  function Kept(list: seq<Use>, gone: set<Use>): seq<Use>
  {
    if list == [] then []
    else (if list[0] in gone then [] else [list[0]]) + Kept(list[1..], gone)
  }

  lemma {:induction false} KeptIn(list: seq<Use>, gone: set<Use>, u: Use)
    ensures u in Kept(list, gone) <==> u in list && u !in gone
  {
    if list != [] {
      assert list == [list[0]] + list[1..];
      KeptIn(list[1..], gone, u);
    }
  }

  lemma {:induction false} KeptTwice(list: seq<Use>, a: set<Use>, b: set<Use>)
    ensures Kept(Kept(list, a), b) == Kept(list, a + b)
  {
    if list != [] {
      var head: seq<Use> := if list[0] in a then [] else [list[0]];
      KeptTwice(list[1..], a, b);
      KeptConcat(head, Kept(list[1..], a), b);
      assert list[0] !in a ==> head[1..] == [];
    }
  }

  lemma {:induction false} KeptConcat(l: seq<Use>, more: seq<Use>, gone: set<Use>)
    ensures Kept(l + more, gone) == Kept(l, gone) + Kept(more, gone)
  {
    if l == [] {
      assert l + more == more;
    } else {
      assert (l + more)[1..] == l[1..] + more;
      KeptConcat(l[1..], more, gone);
    }
  }

  lemma {:induction false} KeptAll(list: seq<Use>)
    ensures Kept(list, {}) == list
  {
    if list != [] { KeptAll(list[1..]); }
  }

  /** The uses of d by the first k operands of an instruction. */
  ghost function UsesBy(it: Instruction, d: Name, k: nat): set<Use>
    requires k <= |AllOperands(it)|
  {
    set i | 0 <= i < k && AllOperands(it)[i] == Ref(d) :: (it, i)
  }

  ghost function UsesByAll(gone: set<Instruction>, d: Name): set<Use> {
    set it, i | it in gone && 0 <= i < |AllOperands(it)| && AllOperands(it)[i] == Ref(d) :: (it, i)
  }

  /** The lists after the first k operands of an instruction have been removed. */
  ghost function WithoutFirst(uses: Lists, it: Instruction, k: nat): Lists
    requires k <= |AllOperands(it)|
  {
    map d | d in uses :: Kept(uses[d], UsesBy(it, d, k))
  }

  /** The lists after all operands of the instructions have been removed. */
  ghost function Without(uses: Lists, gone: set<Instruction>): Lists {
    map d | d in uses :: Kept(uses[d], UsesByAll(gone, d))
  }

  lemma WithoutNone(uses: Lists, it: Instruction)
    ensures WithoutFirst(uses, it, 0) == uses
  {
    forall d | d in uses
      ensures Kept(uses[d], UsesBy(it, d, 0)) == uses[d]
    {
      assert UsesBy(it, d, 0) == {};
      KeptAll(uses[d]);
    }
  }

  lemma WithoutNothing(uses: Lists)
    ensures Without(uses, {}) == uses
  {
    forall d | d in uses
      ensures Kept(uses[d], UsesByAll({}, d)) == uses[d]
    {
      assert UsesByAll({}, d) == {};
      KeptAll(uses[d]);
    }
  }

  /** One operand more: the entry goes from the list of what it was. */
  lemma WithoutNext(uses: Lists, it: Instruction, k: nat)
    requires k < |AllOperands(it)|
    ensures var o, m := AllOperands(it)[k], WithoutFirst(uses, it, k);
            WithoutFirst(uses, it, k + 1) ==
            if o.Ref? && o.name in m then m[o.name := Kept(m[o.name], {(it, k)})] else m
  {
    hide Kept, UsesBy;
    var o, m := AllOperands(it)[k], WithoutFirst(uses, it, k);
    forall d | d in uses
      ensures Kept(uses[d], UsesBy(it, d, k + 1)) == if o == Ref(d) then Kept(m[d], {(it, k)}) else m[d]
    {
      NextUse(uses[d], it, d, k);
    }
  }

  lemma NextUse(list: seq<Use>, it: Instruction, d: Name, k: nat)
    requires k < |AllOperands(it)|
    ensures Kept(list, UsesBy(it, d, k + 1)) ==
            if AllOperands(it)[k] == Ref(d) then Kept(Kept(list, UsesBy(it, d, k)), {(it, k)})
            else Kept(list, UsesBy(it, d, k))
  {
    hide Kept;
    if AllOperands(it)[k] == Ref(d) {
      assert UsesBy(it, d, k + 1) == UsesBy(it, d, k) + {(it, k)};
      KeptTwice(list, UsesBy(it, d, k), {(it, k)});
    } else {
      assert UsesBy(it, d, k + 1) == UsesBy(it, d, k);
    }
  }

  lemma WithoutOne(uses: Lists, gone: set<Instruction>, it: Instruction)
    ensures WithoutFirst(Without(uses, gone), it, |AllOperands(it)|) == Without(uses, gone + {it})
  {
    var n := |AllOperands(it)|;
    forall d | d in uses
      ensures Kept(Kept(uses[d], UsesByAll(gone, d)), UsesBy(it, d, n)) == Kept(uses[d], UsesByAll(gone + {it}, d))
    {
      assert UsesByAll(gone + {it}, d) == UsesByAll(gone, d) + UsesBy(it, d, n);
      KeptTwice(uses[d], UsesByAll(gone, d), UsesBy(it, d, n));
    }
  }

  /** Deleting instructions and removing their operands keeps lists and operands in agreement. */
  lemma DeletionAgrees(blocks: seq<BasicBlock>, after: seq<BasicBlock>, uses: Lists, gone: set<Instruction>)
    requires Agree(blocks, uses)
    requires forall it :: InBlocks(after, it) <==> InBlocks(blocks, it) && it !in gone
    ensures Agree(after, Without(uses, gone))
  {
    hide InBlocks;
    forall d, it, i: nat | d in uses
      ensures (it, i) in Without(uses, gone)[d] <==> InBlocks(after, it) && UsedAt(it, i, d)
    {
      KeptIn(uses[d], UsesByAll(gone, d), (it, i));
      assert (it, i) in UsesByAll(gone, d) <==> it in gone && UsedAt(it, i, d);
      assert (it, i) in uses[d] <==> InBlocks(blocks, it) && UsedAt(it, i, d);
    }
  }

  // ----- The lists of a function -----

  function Entries(it: Instruction, d: Name, i: nat): seq<Use>
    requires i <= |AllOperands(it)|
    decreases |AllOperands(it)| - i
  {
    if i == |AllOperands(it)| then []
    else (if AllOperands(it)[i] == Ref(d) then [(it, i)] else []) + Entries(it, d, i + 1)
  }

  function UsesOf(its: seq<Instruction>, d: Name): seq<Use> {
    if its == [] then [] else Entries(its[0], d, 0) + UsesOf(its[1..], d)
  }

  lemma {:induction false} EntriesIn(it: Instruction, d: Name, k: nat, u: Use)
    requires k <= |AllOperands(it)|
    ensures u in Entries(it, d, k) <==> u.0 == it && k <= u.1 && UsedAt(it, u.1, d)
    decreases |AllOperands(it)| - k
  {
    if k < |AllOperands(it)| { EntriesIn(it, d, k + 1, u); }
  }

  lemma {:induction false} UsesOfIn(its: seq<Instruction>, d: Name, u: Use)
    ensures u in UsesOf(its, d) <==> u.0 in its && UsedAt(u.0, u.1, d)
  {
    if its != [] {
      EntriesIn(its[0], d, 0, u);
      UsesOfIn(its[1..], d, u);
      assert its == [its[0]] + its[1..];
    }
  }
}
