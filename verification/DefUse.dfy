/** Definitions and uses: every value lists its uses, every user its operands, and the two agree. */
module DefUse {

  /** One use: the user and the number of the operand. */
  datatype Use = Use(user: Value, argNo: nat)

  /** All use lists and operand lists at one moment. */
  datatype Net = Net(uses: map<Value, seq<Use>>, operands: map<Value, seq<Value?>>)

  ghost predicate Points(n: Net, u: Use, v: Value) {
    u.user in n.operands && u.argNo < |n.operands[u.user]| && n.operands[u.user][u.argNo] == v
  }

  ghost predicate Closed(n: Net) {
    && n.uses.Keys == n.operands.Keys
    && forall u, i :: u in n.operands && 0 <= i < |n.operands[u]| && n.operands[u][i] != null ==>
      n.operands[u][i] in n.uses
  }

  /** (u, i) is in the list of v, and then once, if and only if operand i of u is v. */
  ghost predicate Agree(n: Net) {
    && Closed(n)
    && (forall v, x :: v in n.uses && x in n.uses[v] ==> x.user in n.uses)
    && forall v, u, i: nat {:trigger Count(n, v, u, i)} :: v in n.uses && u in n.uses ==>
         Count(n, v, u, i) == if Points(n, Use(u, i), v) then 1 else 0
  }

  /** How often (u, i) is in the list of v. */
  ghost function Count(n: Net, v: Value, u: Value, i: nat): nat
    requires v in n.uses
  {
    multiset(n.uses[v])[Use(u, i)]
  }

  function Without(s: seq<Use>, u: Use): seq<Use> {
    if s == [] then [] else (if s[0] == u then [] else [s[0]]) + Without(s[1..], u)
  }

  lemma {:induction false} CountWithout(s: seq<Use>, u: Use, x: Use)
    ensures multiset(Without(s, u))[x] == if x == u then 0 else multiset(s)[x]
  {
    if s != [] {
      CountWithout(s[1..], u, x);
      assert s == [s[0]] + s[1..];
    }
  }

  lemma {:induction false} WithoutIn(s: seq<Use>, u: Use, x: Use)
    ensures x in Without(s, u) <==> x in s && x != u
  {
    if s != [] { WithoutIn(s[1..], u, x); }
  }

  lemma {:induction false} WithoutAbsent(s: seq<Use>, u: Use)
    requires u !in s
    ensures Without(s, u) == s
  {
    if s != [] { WithoutAbsent(s[1..], u); }
  }

  // ----- What the operations do to the net -----

  function Unlink(n: Net, u: Use, v: Value?): Net {
    if v == null || v !in n.uses then n else n.(uses := n.uses[v := Without(n.uses[v], u)])
  }

  function Link(n: Net, u: Use, v: Value?): Net {
    if v == null || v !in n.uses then n else n.(uses := n.uses[v := n.uses[v] + [u]])
  }

  function AfterSet(n: Net, u: Value, i: nat, v: Value?): Net
    requires u in n.operands && i < |n.operands[u]|
  {
    Link(Unlink(n, Use(u, i), n.operands[u][i]), Use(u, i), v).(operands := n.operands[u := n.operands[u][i := v]])
  }

  lemma UnlinkCounts(n: Net, u: Use, o: Value?, w: Value, x: Value, j: nat)
    requires w in n.uses
    ensures Unlink(n, u, o).uses.Keys == n.uses.Keys && Unlink(n, u, o).operands == n.operands
    ensures Count(Unlink(n, u, o), w, x, j) == if w == o && Use(x, j) == u then 0 else Count(n, w, x, j)
  {
    CountWithout(n.uses[w], u, Use(x, j));
  }

  lemma LinkCounts(n: Net, u: Use, v: Value?, w: Value, x: Value, j: nat)
    requires w in n.uses
    ensures Link(n, u, v).uses.Keys == n.uses.Keys && Link(n, u, v).operands == n.operands
    ensures Count(Link(n, u, v), w, x, j) == Count(n, w, x, j) + if w == v && Use(x, j) == u then 1 else 0
  {
  }

  lemma SetOperandCounts(n: Net, u: Value, i: nat, v: Value?, w: Value, x: Value, j: nat)
    requires Agree(n) && u in n.operands && i < |n.operands[u]| && (v != null ==> v in n.uses) && w in n.uses
    requires x in n.uses
    ensures var n' := AfterSet(n, u, i, v);
            n'.uses.Keys == n.uses.Keys && Count(n', w, x, j) == if Points(n', Use(x, j), w) then 1 else 0
  {
    var o := n.operands[u][i];
    var m := Unlink(n, Use(u, i), o);
    UnlinkCounts(n, Use(u, i), o, w, x, j);
    LinkCounts(m, Use(u, i), v, w, x, j);
    hide Unlink, Link;
    var n' := AfterSet(n, u, i, v);
    assert Count(n', w, x, j) == Count(Link(m, Use(u, i), v), w, x, j);
    assert Count(n, w, x, j) == if Points(n, Use(x, j), w) then 1 else 0;
  }

  lemma LinkedUsers(n: Net, u: Use, o: Value?, v: Value?, w: Value, x: Use)
    requires (forall w, x :: w in n.uses && x in n.uses[w] ==> x.user in n.uses) && u.user in n.uses
    requires w in n.uses && w in Link(Unlink(n, u, o), u, v).uses && x in Link(Unlink(n, u, o), u, v).uses[w]
    ensures x.user in n.uses
  {
    WithoutIn(n.uses[w], u, x);
  }

  /** `set_operand` keeps the agreement. */
  lemma SetOperandAgrees(n: Net, u: Value, i: nat, v: Value?)
    requires Agree(n) && u in n.operands && i < |n.operands[u]| && (v != null ==> v in n.uses)
    ensures Agree(AfterSet(n, u, i, v))
  {
    var n' := AfterSet(n, u, i, v);
    forall w, x, j: nat | w in n'.uses && x in n'.uses
      ensures Count(n', w, x, j) == if Points(n', Use(x, j), w) then 1 else 0
    {
      SetOperandCounts(n, u, i, v, w, x, j);
    }
    forall w, x | w in n'.uses && x in n'.uses[w]
      ensures x.user in n'.uses
    {
      LinkedUsers(n, Use(u, i), n.operands[u][i], v, w, x);
    }
  }

  function AfterAdd(n: Net, u: Value, v: Value): Net
    requires u in n.operands
  {
    Link(n, Use(u, |n.operands[u]|), v).(operands := n.operands[u := n.operands[u] + [v]])
  }

  lemma AddOperandAgrees(n: Net, u: Value, v: Value)
    requires Agree(n) && u in n.operands && v in n.uses
    ensures Agree(AfterAdd(n, u, v))
  {
    var n' := AfterAdd(n, u, v);
    forall w, x, j: nat | w in n'.uses && x in n'.uses
      ensures Count(n', w, x, j) == if Points(n', Use(x, j), w) then 1 else 0
    {
      assert Count(n, w, x, j) == if Points(n, Use(x, j), w) then 1 else 0;
    }
  }

  // ----- Redirecting uses -----

  function Kept(s: seq<Use>, p: Use -> bool): seq<Use> {
    if s == [] then [] else Kept(s[..|s| - 1], p) + (if p(s[|s| - 1]) then [] else [s[|s| - 1]])
  }

  function Moved(s: seq<Use>, p: Use -> bool): seq<Use> {
    if s == [] then [] else Moved(s[..|s| - 1], p) + (if p(s[|s| - 1]) then [s[|s| - 1]] else [])
  }

  function RedirectOps(ops: seq<Value?>, u: Value, v: Value, w: Value?, done: seq<Use>): (r: seq<Value?>)
    ensures |r| == |ops| && forall i :: 0 <= i < |ops| ==> r[i] == if ops[i] == v && Use(u, i) in done then w
            else ops[i]
  {
    seq(|ops|, i requires 0 <= i < |ops| => if ops[i] == v && Use(u, i) in done then w else ops[i])
  }

  /** v has kept some of its uses; the moved ones have become uses of w, behind w's own. */
  function Redirected(n: Net, v: Value, w: Value?, kept: seq<Use>, moved: seq<Use>): Net {
    Net(map x | x in n.uses :: if x == v then kept else if x == w then n.uses[x] + moved else n.uses[x],
        map u | u in n.operands :: RedirectOps(n.operands[u], u, v, w, moved))
  }

  /** The uses of v that satisfy p, among the first k, have become uses of w, in the same order. */
  function Redirect(n: Net, v: Value, w: Value?, p: Use -> bool, k: nat): Net
    requires v in n.uses && k <= |n.uses[v]|
  {
    var s := n.uses[v];
    Redirected(n, v, w, Kept(s[..k], p) + s[k..], Moved(s[..k], p))
  }

  lemma {:induction false} MovedIn(s: seq<Use>, p: Use -> bool, u: Use)
    ensures u in Moved(s, p) <==> u in s && p(u)
    ensures u in Kept(s, p) <==> u in s && !p(u)
  {
    if s != [] {
      assert s == s[..|s| - 1] + [s[|s| - 1]];
      MovedIn(s[..|s| - 1], p, u);
    }
  }

  lemma CountedOnce(n: Net, v: Value, j: nat, k: nat)
    requires Agree(n) && v in n.uses && j < k < |n.uses[v]|
    ensures n.uses[v][j] != n.uses[v][k]
  {
    var s := n.uses[v];
    assert s == s[..k] + [s[k]] + s[k + 1..];
    assert s[..k][j] == s[j];
    assert s[k] in s;
    assert Count(n, v, s[k].user, s[k].argNo) <= 1;
  }

  lemma UsePoints(n: Net, v: Value, k: nat)
    requires Agree(n) && v in n.uses && k < |n.uses[v]|
    ensures Points(n, n.uses[v][k], v) && n.uses[v][k].user in n.uses
  {
    var u := n.uses[v][k];
    assert u in n.uses[v] && u in multiset(n.uses[v]);
    assert Count(n, v, u.user, u.argNo) > 0;
  }

  lemma RedirectNone(n: Net, v: Value, w: Value?, p: Use -> bool)
    requires Closed(n) && v in n.uses
    ensures Redirect(n, v, w, p, 0) == n
  {
    var r := Redirect(n, v, w, p, 0);
    assert n.uses[v][..0] == [] && n.uses[v][0..] == n.uses[v];
    forall x | x in n.uses
      ensures r.uses[x] == n.uses[x]
    {
    }
    forall u | u in n.operands
      ensures r.operands[u] == n.operands[u]
    {
    }
    assert r.uses == n.uses && r.operands == n.operands;
  }

  lemma MovedStep(s: seq<Use>, p: Use -> bool, k: nat)
    requires k < |s|
    ensures Moved(s[..k + 1], p) == if p(s[k]) then Moved(s[..k], p) + [s[k]] else Moved(s[..k], p)
    ensures Kept(s[..k + 1], p) == if p(s[k]) then Kept(s[..k], p) else Kept(s[..k], p) + [s[k]]
  {
    assert s[..k + 1][..k] == s[..k] && s[..k + 1][k] == s[k];
    assert Moved(s[..k], p) + [] == Moved(s[..k], p) && Kept(s[..k], p) + [] == Kept(s[..k], p);
  }

  lemma RedirectSkip(n: Net, v: Value, w: Value?, p: Use -> bool, k: nat)
    requires v in n.uses && k < |n.uses[v]| && !p(n.uses[v][k])
    ensures Redirect(n, v, w, p, k + 1) == Redirect(n, v, w, p, k)
  {
    var s := n.uses[v];
    MovedStep(s, p, k);
    assert Kept(s[..k], p) + [s[k]] + s[k + 1..] == Kept(s[..k], p) + s[k..];
  }

  /** One more use is redirected by setting the operand. */
  lemma RedirectStep(n: Net, v: Value, w: Value?, p: Use -> bool, k: nat)
    requires Agree(n) && v in n.uses && k < |n.uses[v]| && p(n.uses[v][k]) && w != v && (w != null ==> w in n.uses)
    ensures var u := n.uses[v][k];
            var r := Redirect(n, v, w, p, k);
            && u.user in r.operands && u.argNo < |r.operands[u.user]| && r.operands[u.user][u.argNo] == v
            && Redirect(n, v, w, p, k + 1) == AfterSet(r, u.user, u.argNo, w)
  {
    var s, u := n.uses[v], n.uses[v][k];
    UsePoints(n, v, k);
    StillThere(n, v, p, k);
    DropNext(n, v, p, k);
    MovedStep(s, p, k);
    RedirectedStep(n, v, w, Kept(s[..k], p) + s[k..], Moved(s[..k], p), u);
  }

  lemma RedirectedStep(n: Net, v: Value, w: Value?, kept: seq<Use>, moved: seq<Use>, u: Use)
    requires Closed(n) && v in n.uses && w != v && (w != null ==> w in n.uses) && u !in moved && Points(n, u, v)
    ensures var r := Redirected(n, v, w, kept, moved);
            && u.user in r.operands && u.argNo < |r.operands[u.user]| && r.operands[u.user][u.argNo] == v
            && Redirected(n, v, w, Without(kept, u), moved + [u]) == AfterSet(r, u.user, u.argNo, w)
  {
    RedirectedUses(n, v, w, kept, moved, u);
    RedirectedOperands(n, v, w, kept, moved, u);
    var r := Redirected(n, v, w, kept, moved);
    UnlinkFrame(r, u, v);
    LinkFrame(Unlink(r, u, v), u, w);
    hide Link, Unlink, RedirectOps, Redirected;
    assert AfterSet(r, u.user, u.argNo, w).uses == Link(Unlink(r, u, v), u, w).uses;
  }

  lemma RedirectedOperands(n: Net, v: Value, w: Value?, kept: seq<Use>, moved: seq<Use>, u: Use)
    requires u !in moved && Points(n, u, v)
    ensures var r := Redirected(n, v, w, kept, moved);
            && u.user in r.operands && u.argNo < |r.operands[u.user]| && r.operands[u.user][u.argNo] == v
            && Redirected(n, v, w, Without(kept, u), moved + [u]).operands
              == r.operands[u.user := r.operands[u.user][u.argNo := w]]
  {
    var r := Redirected(n, v, w, kept, moved);
    var r', q := Redirected(n, v, w, Without(kept, u), moved + [u]).operands,
      r.operands[u.user := r.operands[u.user][u.argNo := w]];
    forall x | x in n.operands
      ensures r'[x] == q[x]
    {
      RedirectOpsStep(n.operands[x], x, v, w, moved, u);
    }
  }

  lemma RedirectedUses(n: Net, v: Value, w: Value?, kept: seq<Use>, moved: seq<Use>, u: Use)
    requires v in n.uses && w != v && (w != null ==> w in n.uses)
    ensures Redirected(n, v, w, Without(kept, u), moved + [u]).uses
            == Link(Unlink(Redirected(n, v, w, kept, moved), u, v), u, w).uses
  {
    var r' := Redirected(n, v, w, Without(kept, u), moved + [u]);
    var q := Link(Unlink(Redirected(n, v, w, kept, moved), u, v), u, w);
    forall x | x in n.uses
      ensures x in q.uses && r'.uses[x] == q.uses[x]
    {
      if x == w { assert n.uses[x] + moved + [u] == n.uses[x] + (moved + [u]); }
    }
  }

  lemma StillThere(n: Net, v: Value, p: Use -> bool, k: nat)
    requires Agree(n) && v in n.uses && k < |n.uses[v]|
    ensures n.uses[v][k] !in Moved(n.uses[v][..k], p) && n.uses[v][k] !in Kept(n.uses[v][..k], p)
    ensures n.uses[v][k] !in n.uses[v][k + 1..]
  {
    var s := n.uses[v];
    MovedIn(s[..k], p, s[k]);
    forall j | 0 <= j < |s| && j != k
      ensures s[j] != s[k]
    {
      if j < k { CountedOnce(n, v, j, k); } else { CountedOnce(n, v, k, j); }
    }
  }

  lemma DropNext(n: Net, v: Value, p: Use -> bool, k: nat)
    requires Agree(n) && v in n.uses && k < |n.uses[v]|
    ensures Without(Kept(n.uses[v][..k], p) + n.uses[v][k..], n.uses[v][k])
            == Kept(n.uses[v][..k], p) + n.uses[v][k + 1..]
  {
    var s := n.uses[v];
    StillThere(n, v, p, k);
    WithoutConcat(Kept(s[..k], p), s[k..], s[k]);
    WithoutAbsent(Kept(s[..k], p), s[k]);
    WithoutAbsent(s[k + 1..], s[k]);
    assert s[k..][1..] == s[k + 1..];
    assert [] + s[k + 1..] == s[k + 1..];
  }

  lemma {:induction false} WithoutConcat(s: seq<Use>, t: seq<Use>, u: Use)
    ensures Without(s + t, u) == Without(s, u) + Without(t, u)
  {
    if s == [] {
      assert s + t == t;
    } else {
      assert (s + t)[1..] == s[1..] + t;
      WithoutConcat(s[1..], t, u);
    }
  }

  lemma RedirectOpsStep(ops: seq<Value?>, x: Value, v: Value, w: Value?, moved: seq<Use>, u: Use)
    requires u.user == x ==> u.argNo < |ops| && ops[u.argNo] == v
    ensures RedirectOps(ops, x, v, w, moved + [u]) ==
            if u.user == x then RedirectOps(ops, x, v, w, moved)[u.argNo := w] else RedirectOps(ops, x, v, w, moved)
  {
  }

  lemma {:induction false} RedirectAgrees(n: Net, v: Value, w: Value?, p: Use -> bool, k: nat)
    requires Agree(n) && v in n.uses && k <= |n.uses[v]| && w != v && (w != null ==> w in n.uses)
    ensures Agree(Redirect(n, v, w, p, k))
  {
    if k == 0 {
      RedirectNone(n, v, w, p);
    } else {
      hide Agree, Redirect, AfterSet;
      RedirectAgrees(n, v, w, p, k - 1);
      if p(n.uses[v][k - 1]) {
        RedirectStep(n, v, w, p, k - 1);
        var u := n.uses[v][k - 1];
        SetOperandAgrees(Redirect(n, v, w, p, k - 1), u.user, u.argNo, w);
      } else {
        RedirectSkip(n, v, w, p, k - 1);
      }
    }
  }

  lemma {:induction false} AllMoved(s: seq<Use>)
    ensures Kept(s, x => true) == [] && Moved(s, x => true) == s
  {
    if s != [] {
      AllMoved(s[..|s| - 1]);
      assert s == s[..|s| - 1] + [s[|s| - 1]];
    }
  }


  // ----- Removing operands -----

  /** The first k operands of u are no longer in the lists. */
  function Cleared(n: Net, u: Value, k: nat): Net
    requires u in n.operands && k <= |n.operands[u]|
  {
    if k == 0 then n else Unlink(Cleared(n, u, k - 1), Use(u, k - 1), n.operands[u][k - 1])
  }

  lemma {:induction false} ClearedCounts(n: Net, u: Value, k: nat, w: Value, x: Value, j: nat)
    requires u in n.operands && k <= |n.operands[u]| && w in n.uses
    ensures var m := Cleared(n, u, k);
            && m.uses.Keys == n.uses.Keys && m.operands == n.operands
            && Count(m, w, x, j) == if x == u && j < k && n.operands[u][j] == w then 0 else Count(n, w, x, j)
  {
    if k > 0 {
      ClearedCounts(n, u, k - 1, w, x, j);
      UnlinkCounts(Cleared(n, u, k - 1), Use(u, k - 1), n.operands[u][k - 1], w, x, j);
    }
  }

  lemma {:induction false} ClearedUsers(n: Net, u: Value, k: nat, w: Value, x: Use)
    requires u in n.operands && k <= |n.operands[u]| && w in n.uses && w in Cleared(n, u, k).uses
    requires x in Cleared(n, u, k).uses[w]
    ensures x in n.uses[w]
  {
    if k > 0 {
      WithoutIn(Cleared(n, u, k - 1).uses[w], Use(u, k - 1), x);
      ClearedUsers(n, u, k - 1, w, x);
    }
  }

  function AfterClear(n: Net, u: Value): Net
    requires u in n.operands
  {
    Cleared(n, u, |n.operands[u]|).(operands := n.operands[u := []])
  }

  /** `remove_all_operands` keeps the agreement: nothing lists u any more. */
  lemma RemoveAllAgrees(n: Net, u: Value)
    requires Agree(n) && u in n.operands
    ensures Agree(AfterClear(n, u))
  {
    var k := |n.operands[u]|;
    var m, n' := Cleared(n, u, k), AfterClear(n, u);
    ClearedCounts(n, u, k, u, u, 0);
    forall w, x, j: nat | w in n'.uses && x in n'.uses
      ensures Count(n', w, x, j) == if Points(n', Use(x, j), w) then 1 else 0
    {
      ClearedCounts(n, u, k, w, x, j);
      assert Count(n, w, x, j) == if Points(n, Use(x, j), w) then 1 else 0;
      assert Count(n', w, x, j) == Count(m, w, x, j);
    }
    forall w, x | w in n'.uses && x in n'.uses[w]
      ensures x.user in n'.uses
    {
      ClearedUsers(n, u, k, w, x);
    }
  }

  /** The operands behind idx up to k have been entered one place lower. */
  function Shifted(n: Net, u: Value, idx: nat, k: nat): Net
    requires u in n.operands && k <= |n.operands[u]|
  {
    if k <= idx + 1 then n
    else Link(Unlink(Shifted(n, u, idx, k - 1), Use(u, k - 1), n.operands[u][k - 1]), Use(u, k - 2),
      n.operands[u][k - 1])
  }

  function One(b: bool): nat {
    if b then 1 else 0
  }

  /** How often (u, j) is in the list of w while operand idx of u is being removed. */
  function ShiftedCount(ops: seq<Value?>, idx: nat, k: nat, w: Value, j: nat): nat
    requires idx < k <= |ops|
  {
    if j >= |ops| then 0
    else if j < idx || j >= k then One(ops[j] == w)
    else if j == idx then One(ops[idx] == w) + (if k > idx + 1 then One(ops[idx + 1] == w) else 0)
    else if j < k - 1 then One(ops[j + 1] == w)
    else 0
  }

  lemma {:induction false} ShiftedCounts(n: Net, u: Value, idx: nat, k: nat, w: Value, x: Value, j: nat)
    requires Agree(n) && u in n.operands && idx < k <= |n.operands[u]| && w in n.uses && x in n.uses
    ensures var m := Shifted(n, u, idx, k);
            && m.uses.Keys == n.uses.Keys && m.operands == n.operands
            && Count(m, w, x, j) == if x == u then ShiftedCount(n.operands[u], idx, k, w, j) else Count(n, w, x, j)
  {
    if k <= idx + 1 {
      assert Shifted(n, u, idx, k) == n;
      hide *;
      NothingShifted(n, u, idx, w, x, j);
    } else {
      var ops := n.operands[u];
      var m, o := Shifted(n, u, idx, k - 1), ops[k - 1];
      var m1 := Unlink(m, Use(u, k - 1), o);
      assert Shifted(n, u, idx, k) == Link(m1, Use(u, k - 2), o);
      hide *;
      ShiftedCounts(n, u, idx, k - 1, w, x, j);
      UnlinkCounts(m, Use(u, k - 1), o, w, x, j);
      LinkCounts(m1, Use(u, k - 2), o, w, x, j);
      if x == u { ShiftedCountStep(ops, idx, k, w, j); }
    }
  }

  lemma NothingShifted(n: Net, u: Value, idx: nat, w: Value, x: Value, j: nat)
    requires Agree(n) && u in n.operands && idx < |n.operands[u]| && w in n.uses && x in n.uses
    ensures x == u ==> Count(n, w, x, j) == ShiftedCount(n.operands[u], idx, idx + 1, w, j)
  {
    assert Count(n, w, x, j) == if Points(n, Use(x, j), w) then 1 else 0;
  }

  lemma ShiftedCountStep(ops: seq<Value?>, idx: nat, k: nat, w: Value, j: nat)
    requires idx + 1 < k <= |ops|
    ensures ShiftedCount(ops, idx, k, w, j) ==
            (if w == ops[k - 1] && j == k - 1 then 0 else ShiftedCount(ops, idx, k - 1, w, j))
            + (if w == ops[k - 1] && j == k - 2 then 1 else 0)
  {
  }

  lemma {:induction false} ShiftedUsers(n: Net, u: Value, idx: nat, k: nat, w: Value, x: Use)
    requires u in n.operands && k <= |n.operands[u]| && w in n.uses && w in Shifted(n, u, idx, k).uses
    requires x in Shifted(n, u, idx, k).uses[w]
    ensures x.user == u || x in n.uses[w]
  {
    if k > idx + 1 {
      var m, o := Shifted(n, u, idx, k - 1), n.operands[u][k - 1];
      WithoutIn(m.uses[w], Use(u, k - 1), x);
      if x.user != u {
        ShiftedUsers(n, u, idx, k - 1, w, x);
      }
    }
  }

  function AfterRemove(n: Net, u: Value, idx: nat): Net
    requires u in n.operands && idx < |n.operands[u]|
  {
    var ops := n.operands[u];
    Unlink(Shifted(n, u, idx, |ops|), Use(u, idx), ops[idx]).(operands := n.operands[u := ops[..idx] + ops[idx + 1..]])
  }

  lemma RemovedCounts(n: Net, u: Value, idx: nat, w: Value, x: Value, j: nat)
    requires Agree(n) && u in n.operands && idx < |n.operands[u]| && w in n.uses && x in n.uses
    ensures var m := AfterRemove(n, u, idx);
            && m.uses.Keys == n.uses.Keys
            && Count(m, w, x, j) == if x != u then Count(n, w, x, j) else if j == idx && n.operands[u][idx] == w then 0
                                    else ShiftedCount(n.operands[u], idx, |n.operands[u]|, w, j)
  {
    var ops := n.operands[u];
    var m := Shifted(n, u, idx, |ops|);
    ShiftedCounts(n, u, idx, |ops|, w, x, j);
    UnlinkCounts(m, Use(u, idx), ops[idx], w, x, j);
    assert Count(AfterRemove(n, u, idx), w, x, j) == Count(Unlink(m, Use(u, idx), ops[idx]), w, x, j);
  }

  /** `remove_operand` keeps the agreement exactly if the next operand, when there is one, is another
      value: otherwise the final removal takes away the entry just made for it. */
  lemma RemoveOperandAgreesIff(n: Net, u: Value, idx: nat)
    requires Agree(n) && u in n.operands && idx < |n.operands[u]| && forall i :: idx <= i < |n.operands[u]| ==>
             n.operands[u][i] != null
    ensures Agree(AfterRemove(n, u, idx)) <==>
            idx + 1 == |n.operands[u]| || n.operands[u][idx] != n.operands[u][idx + 1]
  {
    var ops, n' := n.operands[u], AfterRemove(n, u, idx);
    RemovedCounts(n, u, idx, u, u, 0);
    if idx + 1 < |ops| && ops[idx] == ops[idx + 1] {
      RemovedCounts(n, u, idx, ops[idx], u, idx);
      assert Count(n', ops[idx], u, idx) == 0 && Points(n', Use(u, idx), ops[idx]);
    } else {
      RemoveOperandAgrees(n, u, idx);
    }
  }

  lemma RemovedPoints(n: Net, u: Value, idx: nat, w: Value, x: Value, j: nat)
    requires Agree(n) && u in n.operands && idx < |n.operands[u]| && w in n.uses && x in n.uses
    requires idx + 1 == |n.operands[u]| || n.operands[u][idx] != n.operands[u][idx + 1]
    ensures var n' := AfterRemove(n, u, idx);
            w in n'.uses && Count(n', w, x, j) == if Points(n', Use(x, j), w) then 1 else 0
  {
    RemovedCounts(n, u, idx, w, x, j);
    assert Count(n, w, x, j) == if Points(n, Use(x, j), w) then 1 else 0;
    hide Shifted, Unlink, Agree;
    var n', ops := AfterRemove(n, u, idx), n.operands[u];
    ShiftedFrame(n, u, idx, |ops|);
    UnlinkFrame(Shifted(n, u, idx, |ops|), Use(u, idx), ops[idx]);
    assert n'.operands == n.operands[u := ops[..idx] + ops[idx + 1..]];
  }

  lemma RemoveOperandAgrees(n: Net, u: Value, idx: nat)
    requires Agree(n) && u in n.operands && idx < |n.operands[u]|
    requires idx + 1 == |n.operands[u]| || n.operands[u][idx] != n.operands[u][idx + 1]
    ensures Agree(AfterRemove(n, u, idx))
  {
    var n' := AfterRemove(n, u, idx);
    RemovedCounts(n, u, idx, u, u, 0);
    forall w, x, j: nat | w in n'.uses && x in n'.uses
      ensures Count(n', w, x, j) == if Points(n', Use(x, j), w) then 1 else 0
    {
      RemovedPoints(n, u, idx, w, x, j);
    }
    RemovedUsers(n, u, idx);
    hide AfterRemove;
  }

  lemma RemovedUsers(n: Net, u: Value, idx: nat)
    requires Agree(n) && u in n.operands && idx < |n.operands[u]|
    ensures var n' := AfterRemove(n, u, idx);
            Closed(n') && forall w, x :: w in n'.uses && x in n'.uses[w] ==> x.user in n'.uses
  {
    var ops, n' := n.operands[u], AfterRemove(n, u, idx);
    RemovedCounts(n, u, idx, u, u, 0);
    forall w, x | w in n'.uses && x in n'.uses[w]
      ensures x.user in n'.uses
    {
      WithoutIn(Shifted(n, u, idx, |ops|).uses[w], Use(u, idx), x);
      ShiftedUsers(n, u, idx, |ops|, w, x);
    }
  }

  ghost function Repeated(u: Value, v: Value): Net {
    Net(map[u := [], v := [Use(u, 0), Use(u, 1)]], map[u := [v, v], v := []])
  }

  /** A user of the same value twice: when its first operand is removed, lists and operands disagree. */
  lemma RepeatedOperandLost(u: Value, v: Value)
    requires u != v
    ensures var n := Repeated(u, v); Agree(n) && !Agree(AfterRemove(n, u, 0))
  {
    var n := Repeated(u, v);
    forall w, x, i: nat | w in n.uses && x in n.uses
      ensures Count(n, w, x, i) == if Points(n, Use(x, i), w) then 1 else 0
    {
    }
    RemoveOperandAgreesIff(n, u, 0);
  }

  // ----- The objects -----

  ghost function NetOf(s: set<Value>): Net
    reads s
  {
    Net(map v | v in s :: v.useList, map v | v in s :: v.operands)
  }

  /** A value; a user is a value with operands. `s` stands for all values of the module. */
  class Value {
    var useList: seq<Use>
    var operands: seq<Value?>

    constructor ()
      ensures useList == [] && operands == []
    {
      useList, operands := [], [];
    }

    method AddUse(user: Value, argNo: nat)
      modifies this`useList
      ensures useList == old(useList) + [Use(user, argNo)]
    {
      useList := useList + [Use(user, argNo)];
    }

    /** Deletes every entry equal to the given one. */
    method RemoveUse(user: Value, argNo: nat)
      modifies this`useList
      ensures useList == Without(old(useList), Use(user, argNo))
    {
      var target, kept, i := Use(user, argNo), [], |useList|;
      while i > 0
        invariant 0 <= i <= |useList| && useList == old(useList) && kept == Without(useList[i..], target)
      {
        i := i - 1;
        assert useList[i..][0] == useList[i] && useList[i..][1..] == useList[i + 1..];
        if useList[i] != target {
          kept := [useList[i]] + kept;
        }
      }
      useList := kept;
    }

    // The three kinds of change, seen from all values.

    method Drop(o: Value?, argNo: nat, ghost s: set<Value>)
      requires this in s && (o != null ==> o in s)
      modifies s
      ensures NetOf(s) == Unlink(old(NetOf(s)), Use(this, argNo), o)
      ensures operands == old(operands)
    {
      if o != null {
        ghost var n := NetOf(s);
        o.RemoveUse(this, argNo);
        assert NetOf(s).uses == n.uses[o := Without(n.uses[o], Use(this, argNo))];
        assert NetOf(s).operands == n.operands;
      }
    }

    method Enter(v: Value?, argNo: nat, ghost s: set<Value>)
      requires this in s && (v != null ==> v in s)
      modifies s
      ensures NetOf(s) == Link(old(NetOf(s)), Use(this, argNo), v)
      ensures operands == old(operands)
    {
      if v != null {
        ghost var n := NetOf(s);
        v.AddUse(this, argNo);
        assert NetOf(s).uses == n.uses[v := n.uses[v] + [Use(this, argNo)]];
        assert NetOf(s).operands == n.operands;
      }
    }

    method Assign(ops: seq<Value?>, ghost s: set<Value>)
      requires this in s
      modifies s
      ensures NetOf(s) == old(NetOf(s)).(operands := old(NetOf(s)).operands[this := ops])
      ensures operands == ops
    {
      ghost var n := NetOf(s);
      operands := ops;
      assert NetOf(s).uses == n.uses && NetOf(s).operands == n.operands[this := ops];
    }

    method SetOperand(i: nat, v: Value?, ghost s: set<Value>)
      requires this in s && i < |operands| && (operands[i] != null ==> operands[i] in s) && (v != null ==> v in s)
      modifies s
      ensures NetOf(s) == AfterSet(old(NetOf(s)), this, i, v)
    {
      hide Unlink, Link;
      ghost var n := NetOf(s);
      UnlinkFrame(n, Use(this, i), operands[i]);
      LinkFrame(Unlink(n, Use(this, i), operands[i]), Use(this, i), v);
      Drop(operands[i], i, s);
      Enter(v, i, s);
      Assign(operands[i := v], s);
    }

    method AddOperand(v: Value, ghost s: set<Value>)
      requires this in s && v in s && Agree(NetOf(s))
      modifies s
      ensures NetOf(s) == AfterAdd(old(NetOf(s)), this, v) && Agree(NetOf(s))
    {
      hide Unlink, Link, Agree;
      ghost var n := NetOf(s);
      AddOperandAgrees(n, this, v);
      LinkFrame(n, Use(this, |operands|), v);
      Enter(v, |operands|, s);
      Assign(operands + [v], s);
    }

    method RemoveAllOperands(ghost s: set<Value>)
      requires this in s && Agree(NetOf(s))
      modifies s
      ensures NetOf(s) == AfterClear(old(NetOf(s)), this) && Agree(NetOf(s))
    {
      ghost var n := NetOf(s);
      RemoveAllAgrees(n, this);
      hide Unlink, Link, Agree;
      for i := 0 to |operands|
        invariant operands == old(operands) && NetOf(s) == Cleared(n, this, i)
      {
        ClearedFrame(n, this, i);
        OperandsInside(n, this, i);
        Drop(operands[i], i, s);
      }
      ClearedFrame(n, this, |operands|);
      Assign([], s);
    }

    /** The operands behind idx are entered one place lower. */
    method LowerOperands(idx: nat, ghost s: set<Value>)
      requires this in s && Agree(NetOf(s)) && idx < |operands| && forall i :: idx <= i < |operands| ==>
               operands[i] != null
      modifies s
      ensures NetOf(s) == Shifted(old(NetOf(s)), this, idx, |old(operands)|) && operands == old(operands)
    {
      ghost var n := NetOf(s);
      HeapOf(s, this);
      hide Unlink, Link, Agree, Shifted;
      ShiftedStep(n, this, idx, idx);
      for i := idx + 1 to |operands|
        invariant operands == old(operands) && NetOf(s) == Shifted(n, this, idx, i)
      {
        ShiftedStep(n, this, idx, i);
        OperandsInside(n, this, i);
        Drop(operands[i], i, s);
        Enter(operands[i], i - 1, s);
      }
    }

    /** Whether the agreement survives depends on the operand behind the removed one. */
    method RemoveOperand(idx: nat, ghost s: set<Value>)
      requires this in s && Agree(NetOf(s)) && idx < |operands| && forall i :: idx <= i < |operands| ==>
               operands[i] != null
      modifies s
      ensures NetOf(s) == AfterRemove(old(NetOf(s)), this, idx)
      ensures Agree(NetOf(s)) <==> idx + 1 == |old(operands)| || old(operands)[idx] != old(operands)[idx + 1]
    {
      ghost var n := NetOf(s);
      HeapOf(s, this);
      RemoveOperandAgreesIff(n, this, idx);
      OperandsInside(n, this, idx);
      RemovedIs(n, this, idx);
      hide Unlink, Link, Agree, Shifted, AfterRemove;
      LowerOperands(idx, s);
      Drop(operands[idx], idx, s);
      Assign(operands[..idx] + operands[idx + 1..], s);
    }

    /** Terminates because every use is listed once: setting the operand takes it off the list. */
    method ReplaceAllUseWith(newVal: Value?, ghost s: set<Value>)
      requires this in s && (newVal != null ==> newVal in s) && Agree(NetOf(s))
      modifies s
      ensures Agree(NetOf(s))
      ensures newVal == this ==> NetOf(s) == old(NetOf(s))
      ensures newVal != this ==> useList == [] && NetOf(s) == Redirected(old(NetOf(s)), this, newVal, [], old(useList))
    {
      hide Redirected, Redirect, AfterSet, Agree;
      if newVal == this {
        return;
      }
      ghost var n, all, k := NetOf(s), (u: Use) => true, 0;
      RedirectBegins(n, this, newVal, all);
      while |useList| > 0
        invariant k <= |n.uses[this]| && NetOf(s) == Redirect(n, this, newVal, all, k)
        decreases |n.uses[this]| - k
      {
        AllNext(n, this, newVal, k);
        HeapOf(s, this);
        var use := useList[0];
        HeapOf(s, use.user);
        use.user.SetOperand(use.argNo, newVal, s);
        k := k + 1;
      }
      HeapOf(s, this);
      AllDone(n, this, newVal, k);
    }

    /** The iterator moves on before the operand is set, so it survives the deletion of its entry. */
    method ReplaceUseWithIf(newVal: Value?, shouldReplace: Use -> bool, ghost s: set<Value>)
      requires this in s && (newVal != null ==> newVal in s) && Agree(NetOf(s))
      modifies s
      ensures Agree(NetOf(s))
      ensures newVal == this ==> NetOf(s) == old(NetOf(s))
      ensures newVal != this ==>
                NetOf(s) == Redirected(old(NetOf(s)), this, newVal, Kept(old(useList), shouldReplace),
                  Moved(old(useList), shouldReplace))
    {
      hide Redirected, Redirect, AfterSet, Agree, Kept, Moved;
      if newVal == this {
        return;
      }
      ghost var n, k := NetOf(s), 0;
      RedirectBegins(n, this, newVal, shouldReplace);
      var iter := 0;
      while iter < |useList|
        invariant k <= |n.uses[this]| && NetOf(s) == Redirect(n, this, newVal, shouldReplace, k)
        invariant iter == |Kept(n.uses[this][..k], shouldReplace)|
        decreases |n.uses[this]| - k
      {
        SomeNext(n, this, newVal, shouldReplace, k);
        HeapOf(s, this);
        var use := useList[iter];
        if shouldReplace(use) {
          HeapOf(s, use.user);
          use.user.SetOperand(use.argNo, newVal, s);
        } else {
          iter := iter + 1;
        }
        k := k + 1;
      }
      HeapOf(s, this);
      SomeDone(n, this, newVal, shouldReplace, k);
    }
  }

  lemma HeapOf(s: set<Value>, v: Value)
    ensures v in s ==> v in NetOf(s).uses && v in NetOf(s).operands && NetOf(s).uses[v] == v.useList
    ensures v in s ==> NetOf(s).operands[v] == v.operands
    ensures v !in s ==> v !in NetOf(s).uses
  {
  }

  lemma RedirectBegins(n: Net, v: Value, w: Value?, p: Use -> bool)
    requires Agree(n) && v in n.uses
    ensures Redirect(n, v, w, p, 0) == n && Kept(n.uses[v][..0], p) == []
  {
    RedirectNone(n, v, w, p);
  }

  /** The use that comes next is at the head of what is left of the list. */
  lemma SomeNext(n: Net, v: Value, w: Value?, p: Use -> bool, k: nat)
    requires Agree(n) && v in n.uses && k <= |n.uses[v]| && w != v && (w != null ==> w in n.uses)
    ensures var r, at := Redirect(n, v, w, p, k), |Kept(n.uses[v][..k], p)|;
            && v in r.uses && |r.uses[v]| == at + |n.uses[v]| - k
            && (k < |n.uses[v]| ==>
                  var u := n.uses[v][k];
                  && r.uses[v][at] == u && u.user in r.uses
                  && if p(u) then
                       && u.user in r.operands && u.argNo < |r.operands[u.user]| && r.operands[u.user][u.argNo] == v
                       && Redirect(n, v, w, p, k + 1) == AfterSet(r, u.user, u.argNo, w)
                         && |Kept(n.uses[v][..k + 1], p)| == at
                     else
                       Redirect(n, v, w, p, k + 1) == r && |Kept(n.uses[v][..k + 1], p)| == at + 1)
  {
    var s := n.uses[v];
    if k < |s| {
      UsePoints(n, v, k);
      MovedStep(s, p, k);
      if p(s[k]) { RedirectStep(n, v, w, p, k); } else { RedirectSkip(n, v, w, p, k); }
    }
  }

  lemma SomeDone(n: Net, v: Value, w: Value?, p: Use -> bool, k: nat)
    requires Agree(n) && v in n.uses && k <= |n.uses[v]| && w != v && (w != null ==> w in n.uses)
    requires v in Redirect(n, v, w, p, k).uses && |Redirect(n, v, w, p, k).uses[v]| <= |Kept(n.uses[v][..k], p)|
    ensures Agree(Redirect(n, v, w, p, k))
    ensures Redirect(n, v, w, p, k) == Redirected(n, v, w, Kept(n.uses[v], p), Moved(n.uses[v], p))
  {
    RedirectAgrees(n, v, w, p, k);
    assert n.uses[v][..k] == n.uses[v];
    assert Kept(n.uses[v], p) + n.uses[v][k..] == Kept(n.uses[v], p);
  }

  lemma AllNext(n: Net, v: Value, w: Value?, k: nat)
    requires Agree(n) && v in n.uses && k <= |n.uses[v]| && w != v && (w != null ==> w in n.uses)
    ensures var all := (u: Use) => true;
            var r := Redirect(n, v, w, all, k);
            && v in r.uses && |r.uses[v]| == |n.uses[v]| - k
            && (k < |n.uses[v]| ==>
                  var u := n.uses[v][k];
                  && r.uses[v][0] == u && u.user in r.uses
                  && u.user in r.operands && u.argNo < |r.operands[u.user]| && r.operands[u.user][u.argNo] == v
                  && Redirect(n, v, w, all, k + 1) == AfterSet(r, u.user, u.argNo, w))
  {
    AllMoved(n.uses[v][..k]);
    SomeNext(n, v, w, (u: Use) => true, k);
  }

  lemma AllDone(n: Net, v: Value, w: Value?, k: nat)
    requires Agree(n) && v in n.uses && k <= |n.uses[v]| && w != v && (w != null ==> w in n.uses)
    requires var r := Redirect(n, v, w, (u: Use) => true, k); v in r.uses && r.uses[v] == []
    ensures Agree(Redirect(n, v, w, (u: Use) => true, k))
    ensures Redirect(n, v, w, (u: Use) => true, k) == Redirected(n, v, w, [], n.uses[v])
  {
    AllMoved(n.uses[v][..k]);
    AllMoved(n.uses[v]);
    SomeDone(n, v, w, (u: Use) => true, k);
  }

  lemma UnlinkFrame(n: Net, u: Use, v: Value?)
    ensures Unlink(n, u, v).operands == n.operands
  {
  }

  lemma LinkFrame(n: Net, u: Use, v: Value?)
    ensures Link(n, u, v).operands == n.operands
  {
  }

  lemma {:induction false} ClearedFrame(n: Net, u: Value, k: nat)
    requires u in n.operands && k <= |n.operands[u]|
    ensures Cleared(n, u, k).operands == n.operands
  {
    if k > 0 { ClearedFrame(n, u, k - 1); }
  }

  lemma {:induction false} ShiftedFrame(n: Net, u: Value, idx: nat, k: nat)
    requires u in n.operands && k <= |n.operands[u]|
    ensures Shifted(n, u, idx, k).operands == n.operands
  {
    if k > idx + 1 { ShiftedFrame(n, u, idx, k - 1); }
  }

  lemma ShiftedStep(n: Net, u: Value, idx: nat, k: nat)
    requires u in n.operands && idx <= k < |n.operands[u]|
    ensures Shifted(n, u, idx, k + 1) ==
            if k == idx then n
              else Link(Unlink(Shifted(n, u, idx, k), Use(u, k), n.operands[u][k]), Use(u, k - 1), n.operands[u][k])
  {
  }

  lemma RemovedIs(n: Net, u: Value, idx: nat)
    requires u in n.operands && idx < |n.operands[u]|
    ensures var ops := n.operands[u];
            var m := Unlink(Shifted(n, u, idx, |ops|), Use(u, idx), ops[idx]);
            AfterRemove(n, u, idx) == m.(operands := m.operands[u := ops[..idx] + ops[idx + 1..]])
  {
    ShiftedFrame(n, u, idx, |n.operands[u]|);
  }

  lemma OperandsInside(n: Net, u: Value, i: nat)
    requires Agree(n) && u in n.operands && i < |n.operands[u]|
    ensures n.operands[u][i] != null ==> n.operands[u][i] in n.uses
  {
  }
}
