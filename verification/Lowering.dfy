/** Lowering of statements to a control-flow graph: what the emitted blocks look like. */
module Lowering {
  import opened ControlFlow
  import opened Ir
  import opened SysY

  // Codes of the instructions the lowering adds itself.
  const ICMP_NE: nat := 0
  const FCMP_NE: nat := 1
  const ZEXT: nat := 2

  /** A block under construction. */
  datatype OpenBlock = OpenBlock(body: seq<Instr>, term: Option<Terminator>)

  type Cfg = seq<OpenBlock>

  /** A position in a block. */
  datatype Point = At(b: Block, i: nat)

  function After(p: Point): Point {
    At(p.b, p.i + 1)
  }

  /** The code of a condition: where the parts of it stand. `test` and `zext` name the comparison
      with zero and its extension. */
  datatype AndCode =
    | AndOne(leafVal: Operand, leafEnd: Point, val: Operand, end: Point)
    | AndMore(left: AndCode, test: Name, zext: Name, trueBB: Block, val: Operand, end: Point)

  datatype OrCode =
    | OrOne(land: AndCode, val: Operand, end: Point)
    | OrMore(left: OrCode, test: Name, zext: Name, falseBB: Block, right: AndCode, val: Operand, end: Point)

  /** Where control is after a statement: at a point, or nowhere. */
  datatype Exit = Falls(p: Point) | Closed

  datatype Code =
    | Atom(end: Exit)
    | Nothing
    | Sequence(first: Code, rest: Code)
    | Choice(cond: OrCode, test: Name, trueBB: Block, falseBB: Block, mergeBB: Block, thenCode: Code, elseCode: Code)
    | Loop(cond: OrCode, test: Name, testBB: Block, condBB: Block, afterBB: Block, body: Code)

  /** Targets of continue and break. */
  datatype Jumps = Jumps(testBB: Block, afterBB: Block)

  function EndOf(c: Code, p: Point): Exit {
    match c
    case Atom(e) => e
    case Nothing => Falls(p)
    case Sequence(f, r) => (match EndOf(f, p) case Closed => Closed case Falls(q) => EndOf(r, q))
    case Choice(_, _, _, _, m, _, _) => Falls(At(m, 0))
    case Loop(_, _, _, _, a, _) => Falls(At(a, 0))
  }

  // ----- Code in a graph -----

  predicate Has(g: Cfg, p: Point, ins: Instr) {
    p.b < |g| && p.i < |g[p.b].body| && g[p.b].body[p.i] == ins
  }

  predicate Ends(g: Cfg, p: Point, t: Terminator) {
    p.b < |g| && p.i == |g[p.b].body| && g[p.b].term == Some(t)
  }

  /** The alloca of a variable has the variable's number. */
  function Slot(x: nat): Name {
    Tmp(x)
  }

  /** The code of an expression stands at p: operands and arguments from left to right, then the
      operation. `val` is its value, `end` the point behind it. */
  ghost predicate ExpAt(g: Cfg, e: Exp, p: Point, val: Operand, end: Point)
    decreases e
  {
    match e
    case Num(n) => val == Imm(n) && end == p
    case Decimal(x) => val == FloatImm(x) && end == p
    case Var(x) => val.Ref? && Has(g, p, Load(val.name, Ref(Slot(x)))) && end == After(p)
    case Unary(code, x) =>
      val.Ref? && exists a, q :: ExpAt(g, x, p, a, q) && Has(g, q, Op(val.name, code, [a])) && end == After(q)
    case Binary(code, l, r) =>
      val.Ref? && exists a, q, b, q' ::
        ExpAt(g, l, p, a, q) && ExpAt(g, r, q, b, q') && Has(g, q', Op(val.name, code, [a, b])) && end == After(q')
    case Invoke(f, args) =>
      val.Ref? && exists vals, q :: ExpsAt(g, args, p, vals, q) && Has(g, q, Call(val.name, f, vals)) && end == After(q)
  }

  ghost predicate ExpsAt(g: Cfg, es: Exps, p: Point, vals: seq<Operand>, end: Point)
    decreases es
  {
    match es
    case NoExps => vals == [] && end == p
    case Exps(e, rest) =>
      vals != [] && exists q :: ExpAt(g, e, p, vals[0], q) && ExpsAt(g, rest, q, vals[1..], end)
  }

  ghost predicate LeafAt(g: Cfg, e: Leaf, p: Point, val: Operand, end: Point) {
    match e
    case Folded(b) => val == BitImm(b) && end == p
    case Dynamic(exp, _) => ExpAt(g, exp, p, val, end)
  }

  /** The value of an expression is stored to a variable. */
  ghost predicate StoresAt(g: Cfg, e: Exp, x: nat, p: Point, end: Point) {
    exists v, q :: ExpAt(g, e, p, v, q) && Has(g, q, Store(Ref(Slot(x)), v)) && end == After(q)
  }

  /** A value of type i1 is extended. */
  predicate ExtendedAt(g: Cfg, ty: Type, v: Operand, p: Point, val: Operand, end: Point) {
    if ty.I1? then val.Ref? && Has(g, p, Op(val.name, ZEXT, [v])) && end == After(p)
    else val == v && end == p
  }

  function NotEqual(ty: Type): nat {
    if ty.Float? then FCMP_NE else ICMP_NE
  }

  function Zero(ty: Type): Operand {
    if ty.Float? then FloatImm(0.0) else Imm(0)
  }

  /** Comparison with zero, extension of the result (of no further use), and the branch. */
  predicate TestAt(g: Cfg, ty: Type, v: Operand, test: Name, zext: Name, t: Block, f: Block, p: Point) {
    && !ty.I1? && Has(g, p, Op(test, NotEqual(ty), [v, Zero(ty)]))
    && Has(g, After(p), Op(zext, ZEXT, [Ref(test)]))
    && Ends(g, After(After(p)), CondBr(Ref(test), t, f))
  }

  predicate BranchAt(g: Cfg, ty: Type, v: Operand, test: Name, t: Block, f: Block, p: Point) {
    && !ty.I1? && Has(g, p, Op(test, NotEqual(ty), [v, Zero(ty)]))
    && Ends(g, After(p), CondBr(Ref(test), t, f))
  }

  ghost predicate AndAt(g: Cfg, a: LAnd, c: AndCode, p: Point, falseBB: Block) {
    match a
    case LAndOne(e) =>
      c.AndOne? && LeafAt(g, e, p, c.leafVal, c.leafEnd)
        && ExtendedAt(g, LeafType(e), c.leafVal, c.leafEnd, c.val, c.end)
    case LAndMore(l, e) =>
      c.AndMore? && AndAt(g, l, c.left, p, falseBB) && LeafAt(g, e, At(c.trueBB, 0), c.val, c.end)
      && TestAt(g, LAndType(l), c.left.val, c.test, c.zext, c.trueBB, falseBB, c.left.end)
  }

  ghost predicate OrAt(g: Cfg, o: LOr, c: OrCode, p: Point, trueBB: Block, falseBB: Block) {
    match o
    case LOrOne(a) =>
      c.OrOne? && AndAt(g, a, c.land, p, falseBB) && ExtendedAt(g, LAndType(a), c.land.val, c.land.end, c.val, c.end)
    case LOrMore(l, a) =>
      c.OrMore? && OrAt(g, l, c.left, p, trueBB, c.falseBB) && AndAt(g, a, c.right, At(c.falseBB, 0), falseBB)
      && c.val == c.right.val && c.end == c.right.end
      && TestAt(g, LOrType(l), c.left.val, c.test, c.zext, trueBB, c.falseBB, c.left.end)
  }

  /** A branch of an if, or the body of a loop, goes on at `next` unless it jumps away. */
  predicate GoesTo(g: Cfg, c: Code, p: Point, next: Block) {
    var e := EndOf(c, p); e.Falls? ==> Ends(g, e.p, Br(next))
  }

  /** The code `c` for statement s stands at p. */
  ghost predicate StmtAt(g: Cfg, s: Stmt, c: Code, p: Point, jumps: Option<Jumps>)
    decreases s
  {
    match s
    case Evaluate(e) => c.Atom? && c.end.Falls? && exists v :: ExpAt(g, e, p, v, c.end.p)
    case Declare(x, None) => c == Atom(Falls(After(p))) && Has(g, p, Alloca(Slot(x)))
    case Declare(x, Some(e)) =>
      c.Atom? && c.end.Falls? && Has(g, p, Alloca(Slot(x))) && StoresAt(g, e, x, After(p), c.end.p)
    case Assign(x, e) => c.Atom? && c.end.Falls? && StoresAt(g, e, x, p, c.end.p)
    case Block(items) => ItemsAt(g, items, c, p, jumps)
    case If(cond, t, e) =>
      && c.Choice? && OrAt(g, cond, c.cond, p, c.trueBB, c.falseBB)
      && BranchAt(g, LOrType(cond), c.cond.val, c.test, c.trueBB, c.falseBB, c.cond.end)
      && StmtAt(g, t, c.thenCode, At(c.trueBB, 0), jumps) && GoesTo(g, c.thenCode, At(c.trueBB, 0), c.mergeBB)
      && (if e.Some? then StmtAt(g, e.value, c.elseCode, At(c.falseBB, 0), jumps) else c.elseCode == Nothing)
      && GoesTo(g, c.elseCode, At(c.falseBB, 0), c.mergeBB)
    case While(cond, b) =>
      && c.Loop? && Ends(g, p, Br(c.testBB)) && OrAt(g, cond, c.cond, At(c.testBB, 0), c.condBB, c.afterBB)
      && BranchAt(g, LOrType(cond), c.cond.val, c.test, c.condBB, c.afterBB, c.cond.end)
      && StmtAt(g, b, c.body, At(c.condBB, 0), Some(Jumps(c.testBB, c.afterBB)))
      && GoesTo(g, c.body, At(c.condBB, 0), c.testBB)
    case Return(None) => c == Atom(Closed) && Ends(g, p, RetVoid)
    case Return(Some(e)) => c == Atom(Closed) && exists v, q :: ExpAt(g, e, p, v, q) && Ends(g, q, Ret(v))
    case Break => c == Atom(Closed) && jumps.Some? && Ends(g, p, Br(jumps.value.afterBB))
    case Continue => c == Atom(Closed) && jumps.Some? && Ends(g, p, Br(jumps.value.testBB))
  }

  ghost predicate ItemsAt(g: Cfg, items: Items, c: Code, p: Point, jumps: Option<Jumps>)
    decreases items
  {
    match items
    case Done => c == Nothing
    case Item(s, rest) =>
      && c.Sequence? && StmtAt(g, s, c.first, p, jumps)
      && (match EndOf(c.first, p) case Closed => c.rest == Nothing case Falls(q) => ItemsAt(g, rest, c.rest, q, jumps))
  }

  /** Each of the first n parameters has an alloca and is stored to it, at the start of the entry block. */
  ghost predicate ParamsAt(g: Cfg, n: nat) {
    forall i: nat {:trigger Slot(i)} :: i < n ==>
      Has(g, At(ENTRY, 2 * i), Alloca(Slot(i))) && Has(g, At(ENTRY, 2 * i + 1), Store(Ref(Slot(i)), Arg(i)))
  }

  /** A return that may be added at the end of a function. */
  predicate IsDefault(t: Terminator) {
    t.RetVoid? || (t.Ret? && (t.val.Imm? || t.val.FloatImm?))
  }

  /** Where the body of a function with n parameters begins. */
  function Start(n: nat): Point {
    At(ENTRY, 2 * n)
  }

  /** The code of a function, with the return that is added if control falls off the end of its body. */
  ghost predicate FunctionAt(g: Cfg, n: nat, body: Stmt, c: Code, last: Terminator) {
    && ParamsAt(g, n) && StmtAt(g, body, c, Start(n), None)
    && (EndOf(c, Start(n)).Falls? ==> Ends(g, EndOf(c, Start(n)).p, last))
  }

  // ----- Which blocks belong to code -----

  // Blocks are numbered as they are created, so the new blocks of a part are consecutive.

  function AndSize(c: AndCode): nat {
    match c
    case AndOne(_, _, _, _) => 0
    case AndMore(l, _, _, _, _, _) => 1 + AndSize(l)
  }

  predicate AndPlaced(c: AndCode, lo: nat) {
    match c
    case AndOne(_, _, _, _) => true
    case AndMore(l, _, _, t, _, _) => t == lo && AndPlaced(l, lo + 1)
  }

  function OrSize(c: OrCode): nat {
    match c
    case OrOne(a, _, _) => AndSize(a)
    case OrMore(l, _, _, _, r, _, _) => 1 + OrSize(l) + AndSize(r)
  }

  predicate OrPlaced(c: OrCode, lo: nat) {
    match c
    case OrOne(a, _, _) => AndPlaced(a, lo)
    case OrMore(l, _, _, f, r, _, _) => f == lo && OrPlaced(l, lo + 1) && AndPlaced(r, lo + 1 + OrSize(l))
  }

  /** How many blocks the code has created. */
  function CodeSize(c: Code): nat {
    match c
    case Atom(_) => 0
    case Nothing => 0
    case Sequence(f, r) => CodeSize(f) + CodeSize(r)
    case Choice(o, _, _, _, _, t, e) => 3 + OrSize(o) + CodeSize(t) + CodeSize(e)
    case Loop(o, _, _, _, _, b) => 3 + OrSize(o) + CodeSize(b)
  }

  /** The blocks of the code are those from lo on: all of them new, and no two the same. */
  predicate Placed(c: Code, lo: nat) {
    match c
    case Atom(_) => true
    case Nothing => true
    case Sequence(f, r) => Placed(f, lo) && Placed(r, lo + CodeSize(f))
    case Choice(o, _, x, y, z, t, e) =>
      && x == lo && y == lo + 1 && z == lo + 2 && OrPlaced(o, lo + 3)
      && Placed(t, lo + 3 + OrSize(o)) && Placed(e, lo + 3 + OrSize(o) + CodeSize(t))
    case Loop(o, _, x, y, z, b) =>
      x == lo && y == lo + 1 && z == lo + 2 && OrPlaced(o, lo + 3) && Placed(b, lo + 3 + OrSize(o))
  }

  lemma {:induction false} AppendPlaced(c: Code, x: Code, lo: nat)
    requires Placed(c, lo) && Placed(x, lo + CodeSize(c)) && IsList(c)
    ensures Placed(AppendCode(c, x), lo) && CodeSize(AppendCode(c, x)) == CodeSize(c) + CodeSize(x)
    ensures IsList(AppendCode(c, x))
  {
    if c.Sequence? { AppendPlaced(c.rest, x, lo + CodeSize(c.first)); }
  }

  /** The code of a sequence of items. */
  predicate IsList(c: Code) {
    c.Nothing? || (c.Sequence? && IsList(c.rest))
  }

  /** Every block has its terminator. */
  ghost predicate Complete(g: Cfg) {
    forall b :: 0 <= b < |g| ==> g[b].term.Some?
  }

  /** The finished function. */
  function Finish(g: Cfg): (r: seq<BasicBlock>)
    ensures |r| == |g|
    ensures forall b :: 0 <= b < |g| && g[b].term.Some? ==> r[b] == BasicBlock([], g[b].body, g[b].term.value)
  {
    seq(|g|, b requires 0 <= b < |g| => BasicBlock([], g[b].body, if g[b].term.Some? then g[b].term.value else RetVoid))
  }

  // ----- Sequences, built from the front -----

  function AppendItem(items: Items, s: Stmt): Items {
    match items
    case Done => Item(s, Done)
    case Item(h, t) => Item(h, AppendItem(t, s))
  }

  function Concat(items: Items, more: Items): Items {
    match items
    case Done => more
    case Item(h, t) => Item(h, Concat(t, more))
  }

  function AppendCode(c: Code, x: Code): Code {
    match c
    case Sequence(f, r) => Sequence(f, AppendCode(r, x))
    case _ => Sequence(x, Nothing)
  }

  lemma {:induction false} ConcatItem(items: Items, s: Stmt, more: Items)
    ensures Concat(AppendItem(items, s), more) == Concat(items, Item(s, more))
  {
    if items.Item? { ConcatItem(items.tail, s, more); }
  }

  lemma {:induction false} ConcatDone(items: Items)
    ensures Concat(items, Done) == items
  {
    if items.Item? { ConcatDone(items.tail); }
  }

  lemma {:induction false} AppendAt(g: Cfg, items: Items, c: Code, p: Point, s: Stmt, x: Code, jumps: Option<Jumps>)
    requires ItemsAt(g, items, c, p, jumps) && EndOf(c, p).Falls? && StmtAt(g, s, x, EndOf(c, p).p, jumps)
    ensures ItemsAt(g, AppendItem(items, s), AppendCode(c, x), p, jumps)
    ensures EndOf(AppendCode(c, x), p) == EndOf(x, EndOf(c, p).p)
    decreases items
  {
    match items
    case Done =>
    case Item(h, t) => AppendAt(g, t, c.rest, EndOf(c.first, p).p, s, x, jumps);
  }

  /** What follows a jump is not emitted. */
  lemma {:induction false} ClosedAt(g: Cfg, items: Items, c: Code, p: Point, more: Items, jumps: Option<Jumps>)
    requires ItemsAt(g, items, c, p, jumps) && EndOf(c, p).Closed?
    ensures ItemsAt(g, Concat(items, more), c, p, jumps)
    decreases items
  {
    match items
    case Done =>
    case Item(h, t) =>
      if EndOf(c.first, p).Falls? { ClosedAt(g, t, c.rest, EndOf(c.first, p).p, more, jumps); }
  }

  // ----- Growing graphs -----

  /** Blocks only grow, and not once they are terminated. */
  ghost predicate Extends(g: Cfg, g': Cfg) {
    && |g| <= |g'|
    && forall b {:trigger g[b]} {:trigger g'[b]} :: 0 <= b < |g| ==>
         g[b].body <= g'[b].body && (g[b].term.Some? ==> g'[b] == g[b])
  }

  lemma HasExtends(g: Cfg, g': Cfg, p: Point, ins: Instr)
    requires Extends(g, g') && Has(g, p, ins)
    ensures Has(g', p, ins)
  {
    assert g[p.b].body <= g'[p.b].body;
  }

  lemma TestExtends(g: Cfg, g': Cfg, ty: Type, v: Operand, test: Name, zext: Name, t: Block, f: Block, p: Point)
    requires Extends(g, g') && TestAt(g, ty, v, test, zext, t, f, p)
    ensures TestAt(g', ty, v, test, zext, t, f, p)
  {
    HasExtends(g, g', p, Op(test, NotEqual(ty), [v, Zero(ty)]));
  }

  lemma {:induction false} ExpExtends(g: Cfg, g': Cfg, e: Exp, p: Point, val: Operand, end: Point)
    requires Extends(g, g') && ExpAt(g, e, p, val, end)
    ensures ExpAt(g', e, p, val, end)
    decreases e
  {
    hide Extends, Has;
    match e
    case Num(_) =>
    case Decimal(_) =>
    case Var(x) => HasExtends(g, g', p, Load(val.name, Ref(Slot(x))));
    case Unary(code, x) =>
      var a, q :| ExpAt(g, x, p, a, q) && Has(g, q, Op(val.name, code, [a])) && end == After(q);
      ExpExtends(g, g', x, p, a, q);
      HasExtends(g, g', q, Op(val.name, code, [a]));
    case Binary(code, l, r) =>
      var a, q, b, q' :| ExpAt(g, l, p, a, q) && ExpAt(g, r, q, b, q') && Has(g, q', Op(val.name, code, [a, b]))
                         && end == After(q');
      ExpExtends(g, g', l, p, a, q);
      ExpExtends(g, g', r, q, b, q');
      HasExtends(g, g', q', Op(val.name, code, [a, b]));
    case Invoke(f, args) =>
      var vals, q :| ExpsAt(g, args, p, vals, q) && Has(g, q, Call(val.name, f, vals)) && end == After(q);
      ExpsExtend(g, g', args, p, vals, q);
      HasExtends(g, g', q, Call(val.name, f, vals));
  }

  lemma {:induction false} ExpsExtend(g: Cfg, g': Cfg, es: Exps, p: Point, vals: seq<Operand>, end: Point)
    requires Extends(g, g') && ExpsAt(g, es, p, vals, end)
    ensures ExpsAt(g', es, p, vals, end)
    decreases es
  {
    hide Extends;
    if es.Exps? {
      var q :| ExpAt(g, es.head, p, vals[0], q) && ExpsAt(g, es.tail, q, vals[1..], end);
      ExpExtends(g, g', es.head, p, vals[0], q);
      ExpsExtend(g, g', es.tail, q, vals[1..], end);
    }
  }

  lemma LeafExtends(g: Cfg, g': Cfg, e: Leaf, p: Point, val: Operand, end: Point)
    requires Extends(g, g') && LeafAt(g, e, p, val, end)
    ensures LeafAt(g', e, p, val, end)
  {
    if e.Dynamic? { ExpExtends(g, g', e.exp, p, val, end); }
  }

  lemma StoresExtend(g: Cfg, g': Cfg, e: Exp, x: nat, p: Point, end: Point)
    requires Extends(g, g') && StoresAt(g, e, x, p, end)
    ensures StoresAt(g', e, x, p, end)
  {
    var v, q :| ExpAt(g, e, p, v, q) && Has(g, q, Store(Ref(Slot(x)), v)) && end == After(q);
    ExpExtends(g, g', e, p, v, q);
    HasExtends(g, g', q, Store(Ref(Slot(x)), v));
  }

  /** An expression stays in its block. */
  lemma {:induction false} ExpSameBlock(g: Cfg, e: Exp, p: Point, val: Operand, end: Point)
    requires ExpAt(g, e, p, val, end)
    ensures end.b == p.b && p.i <= end.i
    decreases e
  {
    hide Has;
    match e
    case Num(_) =>
    case Decimal(_) =>
    case Var(_) =>
    case Unary(code, x) =>
      var a, q :| ExpAt(g, x, p, a, q) && Has(g, q, Op(val.name, code, [a])) && end == After(q);
      ExpSameBlock(g, x, p, a, q);
    case Binary(code, l, r) =>
      var a, q, b, q' :| ExpAt(g, l, p, a, q) && ExpAt(g, r, q, b, q') && Has(g, q', Op(val.name, code, [a, b]))
                         && end == After(q');
      ExpSameBlock(g, l, p, a, q);
      ExpSameBlock(g, r, q, b, q');
    case Invoke(f, args) =>
      var vals, q :| ExpsAt(g, args, p, vals, q) && Has(g, q, Call(val.name, f, vals)) && end == After(q);
      ExpsSameBlock(g, args, p, vals, q);
  }

  lemma {:induction false} ExpsSameBlock(g: Cfg, es: Exps, p: Point, vals: seq<Operand>, end: Point)
    requires ExpsAt(g, es, p, vals, end)
    ensures end.b == p.b && p.i <= end.i
    decreases es
  {
    if es.Exps? {
      var q :| ExpAt(g, es.head, p, vals[0], q) && ExpsAt(g, es.tail, q, vals[1..], end);
      ExpSameBlock(g, es.head, p, vals[0], q);
      ExpsSameBlock(g, es.tail, q, vals[1..], end);
    }
  }

  lemma LeafSameBlock(g: Cfg, e: Leaf, p: Point, val: Operand, end: Point)
    requires LeafAt(g, e, p, val, end)
    ensures end.b == p.b
  {
    if e.Dynamic? { ExpSameBlock(g, e.exp, p, val, end); }
  }

  lemma ExtendedExtends(g: Cfg, g': Cfg, ty: Type, v: Operand, p: Point, val: Operand, end: Point)
    requires Extends(g, g') && ExtendedAt(g, ty, v, p, val, end)
    ensures ExtendedAt(g', ty, v, p, val, end)
  {
    if ty.I1? { HasExtends(g, g', p, Op(val.name, ZEXT, [v])); }
  }

  lemma {:induction false} AndExtends(g: Cfg, g': Cfg, a: LAnd, c: AndCode, p: Point, falseBB: Block)
    requires Extends(g, g') && AndAt(g, a, c, p, falseBB)
    ensures AndAt(g', a, c, p, falseBB)
  {
    hide Extends, LeafAt, ExtendedAt, TestAt;
    match a
    case LAndOne(e) =>
      LeafExtends(g, g', e, p, c.leafVal, c.leafEnd);
      ExtendedExtends(g, g', LeafType(e), c.leafVal, c.leafEnd, c.val, c.end);
    case LAndMore(l, e) =>
      AndExtends(g, g', l, c.left, p, falseBB);
      LeafExtends(g, g', e, At(c.trueBB, 0), c.val, c.end);
      TestExtends(g, g', LAndType(l), c.left.val, c.test, c.zext, c.trueBB, falseBB, c.left.end);
  }

  lemma {:induction false} OrExtends(g: Cfg, g': Cfg, o: LOr, c: OrCode, p: Point, trueBB: Block, falseBB: Block)
    requires Extends(g, g') && OrAt(g, o, c, p, trueBB, falseBB)
    ensures OrAt(g', o, c, p, trueBB, falseBB)
  {
    hide Extends, ExtendedAt, TestAt;
    match o
    case LOrOne(a) =>
      AndExtends(g, g', a, c.land, p, falseBB);
      ExtendedExtends(g, g', LAndType(a), c.land.val, c.land.end, c.val, c.end);
    case LOrMore(l, a) =>
      OrExtends(g, g', l, c.left, p, trueBB, c.falseBB);
      AndExtends(g, g', a, c.right, At(c.falseBB, 0), falseBB);
      TestExtends(g, g', LOrType(l), c.left.val, c.test, c.zext, trueBB, c.falseBB, c.left.end);
  }

  lemma EndsExtends(g: Cfg, g': Cfg, p: Point, t: Terminator)
    requires Extends(g, g') && Ends(g, p, t)
    ensures Ends(g', p, t)
  {
    assert g[p.b].term.Some?;
  }

  lemma GoesExtends(g: Cfg, g': Cfg, c: Code, p: Point, next: Block)
    requires Extends(g, g') && GoesTo(g, c, p, next)
    ensures GoesTo(g', c, p, next)
  {
    if EndOf(c, p).Falls? { EndsExtends(g, g', EndOf(c, p).p, Br(next)); }
  }

  lemma BranchExtends(g: Cfg, g': Cfg, ty: Type, v: Operand, test: Name, t: Block, f: Block, p: Point)
    requires Extends(g, g') && BranchAt(g, ty, v, test, t, f, p)
    ensures BranchAt(g', ty, v, test, t, f, p)
  {
    HasExtends(g, g', p, Op(test, NotEqual(ty), [v, Zero(ty)]));
    EndsExtends(g, g', After(p), CondBr(Ref(test), t, f));
  }

  lemma {:induction false} StmtExtends(g: Cfg, g': Cfg, s: Stmt, c: Code, p: Point, jumps: Option<Jumps>)
    requires Extends(g, g') && StmtAt(g, s, c, p, jumps)
    ensures StmtAt(g', s, c, p, jumps)
    decreases s
  {
    hide Extends, Has, Ends, OrAt, BranchAt, GoesTo;
    match s
    case Block(items) => ItemsExtend(g, g', items, c, p, jumps);
    case If(cond, t, e) =>
      OrExtends(g, g', cond, c.cond, p, c.trueBB, c.falseBB);
      BranchExtends(g, g', LOrType(cond), c.cond.val, c.test, c.trueBB, c.falseBB, c.cond.end);
      StmtExtends(g, g', t, c.thenCode, At(c.trueBB, 0), jumps);
      GoesExtends(g, g', c.thenCode, At(c.trueBB, 0), c.mergeBB);
      if e.Some? { StmtExtends(g, g', e.value, c.elseCode, At(c.falseBB, 0), jumps); }
      GoesExtends(g, g', c.elseCode, At(c.falseBB, 0), c.mergeBB);
    case While(cond, b) =>
      EndsExtends(g, g', p, Br(c.testBB));
      OrExtends(g, g', cond, c.cond, At(c.testBB, 0), c.condBB, c.afterBB);
      BranchExtends(g, g', LOrType(cond), c.cond.val, c.test, c.condBB, c.afterBB, c.cond.end);
      StmtExtends(g, g', b, c.body, At(c.condBB, 0), Some(Jumps(c.testBB, c.afterBB)));
      GoesExtends(g, g', c.body, At(c.condBB, 0), c.testBB);
    case _ => AtomExtends(g, g', s, c, p, jumps);
  }

  /** Statements that do not have statements in them. */
  predicate IsAtom(s: Stmt) {
    !s.Block? && !s.If? && !s.While?
  }

  lemma AtomExtends(g: Cfg, g': Cfg, s: Stmt, c: Code, p: Point, jumps: Option<Jumps>)
    requires Extends(g, g') && StmtAt(g, s, c, p, jumps) && IsAtom(s)
    ensures StmtAt(g', s, c, p, jumps)
  {
    hide Extends, Has, Ends, ExpAt, StoresAt;
    match s
    case Evaluate(e) =>
      var v :| ExpAt(g, e, p, v, c.end.p);
      ExpExtends(g, g', e, p, v, c.end.p);
    case Declare(x, init) =>
      HasExtends(g, g', p, Alloca(Slot(x)));
      if init.Some? { StoresExtend(g, g', init.value, x, After(p), c.end.p); }
    case Assign(x, e) => StoresExtend(g, g', e, x, p, c.end.p);
    case Return(None) => EndsExtends(g, g', p, RetVoid);
    case Return(Some(e)) =>
      var v, q :| ExpAt(g, e, p, v, q) && Ends(g, q, Ret(v));
      ExpExtends(g, g', e, p, v, q);
      EndsExtends(g, g', q, Ret(v));
    case Break => EndsExtends(g, g', p, Br(jumps.value.afterBB));
    case Continue => EndsExtends(g, g', p, Br(jumps.value.testBB));
    case _ =>
  }

  /** An atom ends in its block, unless it jumps away. */
  lemma AtomSameBlock(g: Cfg, s: Stmt, c: Code, p: Point, jumps: Option<Jumps>)
    requires StmtAt(g, s, c, p, jumps) && IsAtom(s)
    ensures c.Atom? && (c.end.Falls? ==> c.end.p.b == p.b) && (c.end.Closed? <==> Closes(s))
  {
    hide Has, Ends, ExpAt;
    match s
    case Evaluate(e) =>
      var v :| ExpAt(g, e, p, v, c.end.p);
      ExpSameBlock(g, e, p, v, c.end.p);
    case Declare(x, init) => if init.Some? { StoresSameBlock(g, init.value, x, After(p), c.end.p); }
    case Assign(x, e) => StoresSameBlock(g, e, x, p, c.end.p);
    case _ =>
  }

  lemma StoresSameBlock(g: Cfg, e: Exp, x: nat, p: Point, end: Point)
    requires StoresAt(g, e, x, p, end)
    ensures end.b == p.b && p.i < end.i
  {
    hide Has, ExpAt;
    var v, q :| ExpAt(g, e, p, v, q) && Has(g, q, Store(Ref(Slot(x)), v)) && end == After(q);
    ExpSameBlock(g, e, p, v, q);
  }

  lemma {:induction false} ItemsExtend(g: Cfg, g': Cfg, items: Items, c: Code, p: Point, jumps: Option<Jumps>)
    requires Extends(g, g') && ItemsAt(g, items, c, p, jumps)
    ensures ItemsAt(g', items, c, p, jumps)
    decreases items
  {
    match items
    case Done =>
    case Item(s, rest) =>
      StmtExtends(g, g', s, c.first, p, jumps);
      if EndOf(c.first, p).Falls? {
        ItemsExtend(g, g', rest, c.rest, EndOf(c.first, p).p, jumps);
      }
  }
}
