/** Array initializers: nested braces flattened into a dense vector and a map of positions. */
module ArrayInit {
  import opened Arithmetic
  import opened Ir
  import SysY

  /** An element as it is written: a constant, or an expression evaluated at run time. */
  datatype Elem = Const(n: int) | FloatConst(x: real) | Dynamic(id: nat, ty: SysY.Type)

  const ZERO := Const(0)

  /** The type of the elements of an array. */
  datatype ElemType = IntElem | FloatElem

  /** An element as it is stored: a number, or the value of an expression, converted if need be. */
  datatype Stored = Number(x: real) | AsIs(id: nat) | ToInt(id: nat) | ToFloat(id: nat)

  /** Conversion to int drops the fraction. */
  function Truncated(x: real): int {
    if x >= 0.0 then x.Floor else -(-x).Floor
  }

  /** What an element becomes in an array of this type; values of type i1 are left as they are. */
  function Convert(ty: ElemType, e: Elem): Stored {
    match e
    case Const(n) => Number(n as real)
    case FloatConst(x) => Number(if ty.IntElem? then Truncated(x) as real else x)
    case Dynamic(id, t) =>
      if ty.IntElem? && t.Float? then ToInt(id) else if ty.FloatElem? && t.I32? then ToFloat(id) else AsIs(id)
  }

  function ConvertAll(ty: ElemType, es: seq<Elem>): (r: seq<Stored>)
    ensures |r| == |es| && forall i :: 0 <= i < |es| ==> r[i] == Convert(ty, es[i])
  {
    seq(|es|, i requires 0 <= i < |es| => Convert(ty, es[i]))
  }

  /** What the dense vector holds for an element: nothing usable if it is not a constant. */
  datatype Entry = Known(x: real) | Null

  function EntryOf(e: Stored): Entry {
    match e
    case Number(x) => Known(x)
    case _ => Null
  }

  /** y is the number of a constant in an array of this type: in an array of int the nearest integer
      towards zero. */
  ghost predicate IsNumber(ty: ElemType, e: Elem, y: real)
    requires !e.Dynamic?
  {
    var x := if e.Const? then e.n as real else e.x;
    && (ty.FloatElem? ==> y == x)
    && (ty.IntElem? ==> y == y.Floor as real && -1.0 < x - y < 1.0
                        && (x >= 0.0 ==> 0.0 <= y <= x) && (x <= 0.0 ==> x <= y <= 0.0))
  }

  lemma ConvertIsNumeric(ty: ElemType, e: Elem)
    requires !e.Dynamic?
    ensures Convert(ty, e).Number? && IsNumber(ty, e, Convert(ty, e).x)
  {
  }

  /** The type of what is stored for an expression of type t. */
  ghost function StoredType(s: Stored, t: SysY.Type): SysY.Type {
    match s
    case ToInt(_) => SysY.I32
    case ToFloat(_) => SysY.Float
    case _ => t
  }

  /** A value that is computed at run time is stored in the type of the array, and converted only if it
      has the other one. */
  lemma ConvertIsTyped(ty: ElemType, id: nat, t: SysY.Type)
    ensures var s := Convert(ty, Dynamic(id, t));
            && !s.Number? && s.id == id && (s.AsIs? <==> StoredType(s, t) == t)
            && (!t.I1? ==> StoredType(s, t) == if ty.IntElem? then SysY.I32 else SysY.Float)
            && (t.I1? ==> s.AsIs?)
  {
  }

  /** What stands in the constant of a global array for an element: the number of a constant, and nothing
      usable for an expression. */
  ghost predicate IsEntry(ty: ElemType, e: Elem, entry: Entry) {
    if e.Dynamic? then entry.Null? else entry.Known? && IsNumber(ty, e, entry.x)
  }

  lemma EntryIsNumeric(ty: ElemType, e: Elem)
    ensures IsEntry(ty, e, EntryOf(Convert(ty, e)))
  {
    if !e.Dynamic? { ConvertIsNumeric(ty, e); }
  }

  lemma ZeroEntry(ty: ElemType)
    ensures IsEntry(ty, ZERO, Known(0.0))
  {
  }

  datatype Init = Exp(val: Elem) | Braces(items: seq<Init>)

  // ----- What an initializer means: a nested array -----

  datatype Nest = Cell(val: Elem) | Rows(rows: seq<Nest>)

  /** The number of elements of an array with these bounds. */
  function Size(dims: seq<nat>): nat {
    if dims == [] then 1 else dims[0] * Size(dims[1..])
  }

  predicate Positive(dims: seq<nat>) {
    forall i :: 0 <= i < |dims| ==> dims[i] > 0
  }

  function Zeros(n: nat): (r: seq<Elem>)
    ensures |r| == n && forall i :: 0 <= i < n ==> r[i] == ZERO
  {
    seq(n, i => ZERO)
  }

  /** Elements in a row become a nested array. */
  function Shape(vals: seq<Elem>, dims: seq<nat>): Nest
    requires |vals| == Size(dims)
    decreases |dims|, 1
  {
    if dims == [] then Cell(vals[0]) else Rows(ShapeRows(vals, dims[0], dims[1..]))
  }

  function ShapeRows(vals: seq<Elem>, n: nat, rest: seq<nat>): (r: seq<Nest>)
    requires |vals| == n * Size(rest)
    ensures |r| == n
    decreases |rest|, 2, n
  {
    if n == 0 then []
    else
      MulAtLeast(n, Size(rest));
      [Shape(vals[..Size(rest)], rest)] + ShapeRows(vals[Size(rest)..], n - 1, rest)
  }

  function Filled(vals: seq<Elem>, n: nat): (r: seq<Elem>)
    ensures |vals| <= n ==> |r| == n
  {
    if |vals| <= n then vals + Zeros(n - |vals|) else vals
  }

  /** The nested array a brace initializer stands for: a nested brace is the next row, elements
      without braces fill rows one after another, and what is left is zero. None if it does not fit. */
  function Fill(items: seq<Init>, dims: seq<nat>): Option<Nest>
    requires Positive(dims)
    decreases items, 1
  {
    if dims == [] then
      if items == [] then Some(Cell(ZERO))
      else if |items| == 1 && items[0].Exp? then Some(Cell(items[0].val))
      else None
    else
      SizePositive(dims[1..]);
      var r := FillRows(items, dims[1..], []);
      if r.Some? && |r.value| <= dims[0] then
        Some(Rows(r.value + ZeroRows(dims[0] - |r.value|, dims[1..])))
      else None
  }

  function ZeroRows(n: nat, rest: seq<nat>): (r: seq<Nest>)
    ensures |r| == n
  {
    seq(n, i => Shape(Zeros(Size(rest)), rest))
  }

  /** The rows given by `items`, the first of which has begun with `partial`. */
  function FillRows(items: seq<Init>, rest: seq<nat>, partial: seq<Elem>): Option<seq<Nest>>
    requires Positive(rest) && |partial| < Size(rest)
    decreases items, 0
  {
    if items == [] then Some(CloseRow(partial, rest))
    else
      SizePositive(rest);
      match items[0]
      case Exp(v) =>
        var p := partial + [v];
        if |p| == Size(rest) then
          var r := FillRows(items[1..], rest, []);
          if r.Some? then Some([Shape(p, rest)] + r.value) else None
        else FillRows(items[1..], rest, p)
      case Braces(inner) =>
        var sub, r := Fill(inner, rest), FillRows(items[1..], rest, []);
        if sub.Some? && r.Some? then Some(CloseRow(partial, rest) + [sub.value] + r.value) else None
  }

  /** A row that has been begun is filled up with zeros. */
  function CloseRow(partial: seq<Elem>, rest: seq<nat>): seq<Nest>
    requires |partial| < Size(rest)
  {
    if partial == [] then [] else [Shape(Filled(partial, Size(rest)), rest)]
  }

  lemma {:induction false} SizePositive(dims: seq<nat>)
    requires Positive(dims)
    ensures Size(dims) > 0
  {
    if dims != [] {
      SizePositive(dims[1..]);
    }
  }

  // ----- Row-major order -----

  function Flatten(a: Nest): seq<Elem> {
    match a
    case Cell(v) => [v]
    case Rows(rows) => FlattenAll(rows)
  }

  function FlattenAll(rows: seq<Nest>): seq<Elem> {
    if rows == [] then [] else Flatten(rows[0]) + FlattenAll(rows[1..])
  }

  /** The array has these bounds in every row. */
  predicate HasShape(a: Nest, dims: seq<nat>)
    decreases a
  {
    match a
    case Cell(_) => dims == []
    case Rows(rows) => dims != [] && |rows| == dims[0] && forall i :: 0 <= i < |rows| ==> HasShape(rows[i], dims[1..])
  }

  predicate InBounds(subs: seq<nat>, dims: seq<nat>) {
    |subs| == |dims| && forall i :: 0 <= i < |subs| ==> subs[i] < dims[i]
  }

  function ElementAt(a: Nest, subs: seq<nat>, dims: seq<nat>): Elem
    requires HasShape(a, dims) && InBounds(subs, dims)
    decreases |subs|
  {
    match a
    case Cell(v) => v
    case Rows(rows) => ElementAt(rows[subs[0]], subs[1..], dims[1..])
  }

  /** The offset of an element: each subscript times the size of what it selects. */
  function Offset(subs: seq<nat>, dims: seq<nat>): nat
    requires |subs| <= |dims|
  {
    if subs == [] then 0 else subs[0] * Size(dims[1..]) + Offset(subs[1..], dims[1..])
  }

  lemma {:induction false} FlattenConcat(a: seq<Nest>, b: seq<Nest>)
    ensures FlattenAll(a + b) == FlattenAll(a) + FlattenAll(b)
  {
    if a == [] {
      assert a + b == b;
    } else {
      assert (a + b)[1..] == a[1..] + b;
      FlattenConcat(a[1..], b);
    }
  }

  lemma {:induction false} FlattenSize(a: Nest, dims: seq<nat>)
    requires HasShape(a, dims)
    ensures |Flatten(a)| == Size(dims)
    decreases a, 1
  {
    if a.Rows? { FlattenAllSize(a.rows, dims[1..]); }
  }

  lemma {:induction false} FlattenAllSize(rows: seq<Nest>, rest: seq<nat>)
    requires forall i :: 0 <= i < |rows| ==> HasShape(rows[i], rest)
    ensures |FlattenAll(rows)| == |rows| * Size(rest)
    decreases rows, 0
  {
    if rows != [] {
      FlattenSize(rows[0], rest);
      FlattenAllSize(rows[1..], rest);
      MulAtLeast(|rows|, Size(rest));
    }
  }

  lemma {:induction false} RowInFlatten(rows: seq<Nest>, rest: seq<nat>, k: nat, j: nat)
    requires (forall i :: 0 <= i < |rows| ==> HasShape(rows[i], rest)) && k < |rows| && j < Size(rest)
    ensures |Flatten(rows[k])| == Size(rest) && k * Size(rest) + j < |FlattenAll(rows)|
    ensures FlattenAll(rows)[k * Size(rest) + j] == Flatten(rows[k])[j]
    decreases rows
  {
    FlattenSize(rows[k], rest);
    FlattenAllSize(rows, rest);
    FlattenSize(rows[0], rest);
    if k > 0 {
      MulAtLeast(k, Size(rest));
      RowInFlatten(rows[1..], rest, k - 1, j);
      assert rows[1..][k - 1] == rows[k];
    }
  }

  lemma {:induction false} OffsetInside(subs: seq<nat>, dims: seq<nat>)
    requires InBounds(subs, dims)
    ensures Offset(subs, dims) < Size(dims)
  {
    if subs != [] {
      OffsetInside(subs[1..], dims[1..]);
      Within(subs[0], dims[0], Size(dims[1..]), Offset(subs[1..], dims[1..]));
    }
  }

  lemma Within(i: nat, n: nat, size: nat, j: nat)
    requires i < n && j < size
    ensures i * size + j < n * size
  {
    assert (i + 1) * size <= n * size;
  }

  /** The element at given subscripts stands at their row-major offset. */
  lemma {:induction false} RowMajor(a: Nest, subs: seq<nat>, dims: seq<nat>)
    requires HasShape(a, dims) && InBounds(subs, dims)
    ensures Offset(subs, dims) < |Flatten(a)| == Size(dims)
    ensures Flatten(a)[Offset(subs, dims)] == ElementAt(a, subs, dims)
    decreases |subs|
  {
    FlattenSize(a, dims);
    OffsetInside(subs, dims);
    if subs != [] {
      RowMajor(a.rows[subs[0]], subs[1..], dims[1..]);
      OffsetInside(subs[1..], dims[1..]);
      RowInFlatten(a.rows, dims[1..], subs[0], Offset(subs[1..], dims[1..]));
    }
  }

  lemma {:induction false} ShapeFlattens(vals: seq<Elem>, dims: seq<nat>)
    requires |vals| == Size(dims)
    ensures HasShape(Shape(vals, dims), dims) && Flatten(Shape(vals, dims)) == vals
    decreases |dims|, 1
  {
    if dims == [] {
      assert vals == [vals[0]];
    } else {
      ShapeRowsFlatten(vals, dims[0], dims[1..]);
    }
  }

  lemma {:induction false} ShapeRowsFlatten(vals: seq<Elem>, n: nat, rest: seq<nat>)
    requires |vals| == n * Size(rest)
    ensures var r := ShapeRows(vals, n, rest);
            (forall i :: 0 <= i < |r| ==> HasShape(r[i], rest)) && FlattenAll(r) == vals
    decreases |rest|, 2, n
  {
    if n > 0 {
      MulAtLeast(n, Size(rest));
      var front, back := vals[..Size(rest)], vals[Size(rest)..];
      ShapeFlattens(front, rest);
      ShapeRowsFlatten(back, n - 1, rest);
      var tail := ShapeRows(back, n - 1, rest);
      assert ShapeRows(vals, n, rest)[1..] == tail;
      assert front + back == vals;
    }
  }

  lemma ZerosShape(n: nat, rest: seq<nat>)
    ensures forall i :: 0 <= i < n ==> HasShape(ZeroRows(n, rest)[i], rest)
    ensures FlattenAll(ZeroRows(n, rest)) == Zeros(n * Size(rest))
  {
    ShapeFlattens(Zeros(Size(rest)), rest);
    if n > 0 {
      ZerosShape(n - 1, rest);
      MulAtLeast(n, Size(rest));
      assert ZeroRows(n, rest)[1..] == ZeroRows(n - 1, rest);
    }
  }

  lemma ClosedShape(partial: seq<Elem>, rest: seq<nat>)
    requires |partial| < Size(rest)
    ensures forall i :: 0 <= i < |CloseRow(partial, rest)| ==> HasShape(CloseRow(partial, rest)[i], rest)
    ensures FlattenAll(CloseRow(partial, rest)) == partial + Zeros(|CloseRow(partial, rest)| * Size(rest) - |partial|)
  {
    if partial != [] {
      ShapeFlattens(Filled(partial, Size(rest)), rest);
      assert CloseRow(partial, rest)[1..] == [];
    }
  }

  /** A filled array has the shape of its bounds. */
  lemma {:induction false} FillShape(items: seq<Init>, dims: seq<nat>)
    requires Positive(dims) && Fill(items, dims).Some?
    ensures HasShape(Fill(items, dims).value, dims)
    decreases items, 1
  {
    if dims != [] {
      SizePositive(dims[1..]);
      FillRowsShape(items, dims[1..], []);
      ZerosShape(dims[0] - |FillRows(items, dims[1..], []).value|, dims[1..]);
    }
  }

  lemma {:induction false} FillRowsShape(items: seq<Init>, rest: seq<nat>, partial: seq<Elem>)
    requires Positive(rest) && |partial| < Size(rest) && FillRows(items, rest, partial).Some?
    ensures forall r :: r in FillRows(items, rest, partial).value ==> HasShape(r, rest)
    decreases items, 0
  {
    if items == [] {
      ClosedShape(partial, rest);
    } else {
      match items[0]
      case Exp(v) =>
        var p := partial + [v];
        if |p| == Size(rest) {
          ShapeFlattens(p, rest);
          FillRowsShape(items[1..], rest, []);
        } else {
          FillRowsShape(items[1..], rest, p);
        }
      case Braces(inner) =>
        ClosedShape(partial, rest);
        FillShape(inner, rest);
        FillRowsShape(items[1..], rest, []);
    }
  }

  // ----- The visitor -----

  /** The rows done so far and the row that has been begun, after the first k items. */
  ghost predicate Progress(items: seq<Init>, rest: seq<nat>, k: nat, done: seq<Nest>, partial: seq<Elem>) {
    && Positive(rest) && k <= |items| && |partial| < Size(rest)
    && (forall r :: r in done ==> HasShape(r, rest))
    && FillRows(items[k..], rest, partial).Some? && FillRows(items, rest, []).Some?
    && FillRows(items, rest, []).value == done + FillRows(items[k..], rest, partial).value
  }

  lemma ProgressBegins(items: seq<Init>, dims: seq<nat>)
    requires Positive(dims) && dims != [] && Fill(items, dims).Some?
    ensures Size(dims[1..]) > 0 && Progress(items, dims[1..], 0, [], [])
  {
    SizePositive(dims[1..]);
    assert items[0..] == items;
  }

  lemma ProgressExp(items: seq<Init>, rest: seq<nat>, k: nat, done: seq<Nest>, partial: seq<Elem>, v: Elem)
    requires Progress(items, rest, k, done, partial) && k < |items| && items[k] == Exp(v)
    ensures var p := partial + [v];
            if |p| == Size(rest) then
              Progress(items, rest, k + 1, done + [Shape(p, rest)], [])
                && FlattenAll(done + [Shape(p, rest)]) == FlattenAll(done) + p
            else Progress(items, rest, k + 1, done, p)
  {
    var p := partial + [v];
    assert items[k..][1..] == items[k + 1..];
    SizePositive(rest);
    if |p| == Size(rest) {
      ShapeFlattens(p, rest);
      FlattenConcat(done, [Shape(p, rest)]);
      assert [Shape(p, rest)][1..] == [];
      var tail := FillRows(items[k + 1..], rest, []).value;
      assert done + ([Shape(p, rest)] + tail) == done + [Shape(p, rest)] + tail;
    }
  }

  lemma ProgressBraces(items: seq<Init>, rest: seq<nat>, k: nat, done: seq<Nest>, partial: seq<Elem>, inner: seq<Init>)
    requires Progress(items, rest, k, done, partial) && k < |items| && items[k] == Braces(inner)
    ensures Fill(inner, rest).Some?
    ensures var done' := done + CloseRow(partial, rest) + [Fill(inner, rest).value];
            && Progress(items, rest, k + 1, done', [])
            && FlattenAll(done') == FlattenAll(done) + partial
              + Zeros(|CloseRow(partial, rest)| * Size(rest) - |partial|) + Flatten(Fill(inner, rest).value)
  {
    assert items[k..][1..] == items[k + 1..];
    SizePositive(rest);
    FillShape(inner, rest);
    ClosedShape(partial, rest);
    var close, sub := CloseRow(partial, rest), Fill(inner, rest).value;
    FlattenConcat(done + close, [sub]);
    FlattenConcat(done, close);
    assert [sub][1..] == [];
    var tail := FillRows(items[k + 1..], rest, []).value;
    assert done + (close + [sub] + tail) == done + close + [sub] + tail;
  }

  lemma ProgressEnds(items: seq<Init>, dims: seq<nat>, done: seq<Nest>, partial: seq<Elem>)
    requires Positive(dims) && dims != [] && Fill(items, dims).Some?
    requires Progress(items, dims[1..], |items|, done, partial)
    ensures var used := |FlattenAll(done)| + |partial|;
            && used <= Size(dims)
            && Flatten(Fill(items, dims).value) == FlattenAll(done) + partial + Zeros(Size(dims) - used)
  {
    hide *;
    var more := LeftRows(items, dims, done, partial);
    ProgressFacts(items, dims, done, partial);
    var close, zeros := CloseRow(partial, dims[1..]), ZeroRows(more, dims[1..]);
    ClosedZeros(partial, dims[1..]);
    ZerosFlat(more, dims[1..]);
    RowsAndZeros(done, close, zeros, partial, |FlattenAll(close)| - |partial|, |FlattenAll(zeros)|);
  }

  lemma ProgressFacts(items: seq<Init>, dims: seq<nat>, done: seq<Nest>, partial: seq<Elem>)
    requires Positive(dims) && dims != [] && Fill(items, dims).Some?
    requires Progress(items, dims[1..], |items|, done, partial)
    ensures |partial| < Size(dims[1..]) && |Flatten(Fill(items, dims).value)| == Size(dims)
  {
    FillShape(items, dims);
    FlattenSize(Fill(items, dims).value, dims);
  }

  lemma ZerosFlat(n: nat, rest: seq<nat>)
    ensures FlattenAll(ZeroRows(n, rest)) == Zeros(|FlattenAll(ZeroRows(n, rest))|)
  {
    ZerosShape(n, rest);
  }

  lemma LeftRows(items: seq<Init>, dims: seq<nat>, done: seq<Nest>, partial: seq<Elem>) returns (more: nat)
    requires Positive(dims) && dims != [] && Fill(items, dims).Some?
    requires Progress(items, dims[1..], |items|, done, partial)
    ensures Flatten(Fill(items, dims).value)
            == FlattenAll(done + CloseRow(partial, dims[1..]) + ZeroRows(more, dims[1..]))
  {
    assert items[|items|..] == [];
    more := dims[0] - |done + CloseRow(partial, dims[1..])|;
  }

  lemma RowsAndZeros(done: seq<Nest>, close: seq<Nest>, zeros: seq<Nest>, partial: seq<Elem>, z1: nat, z2: nat)
    requires FlattenAll(close) == partial + Zeros(z1) && FlattenAll(zeros) == Zeros(z2)
    ensures FlattenAll(done + close + zeros) == FlattenAll(done) + partial + Zeros(z1 + z2)
    ensures |FlattenAll(done + close + zeros)| == |FlattenAll(done)| + |partial| + z1 + z2
  {
    FlattenConcat(done + close, zeros);
    FlattenConcat(done, close);
    assert Zeros(z1) + Zeros(z2) == Zeros(z1 + z2);
  }

  lemma ClosedZeros(partial: seq<Elem>, rest: seq<nat>)
    requires |partial| < Size(rest)
    ensures |FlattenAll(CloseRow(partial, rest))| >= |partial|
    ensures FlattenAll(CloseRow(partial, rest)) == partial + Zeros(|FlattenAll(CloseRow(partial, rest))| - |partial|)
  {
    ClosedShape(partial, rest);
  }

  // ----- Which element goes where -----

  /** The elements from item k on, in the order of the text. */
  function ElementsFrom(items: seq<Init>, k: nat): (r: seq<Elem>)
    requires k <= |items|
    decreases items, |items| - k
  {
    if k == |items| then []
    else
      var head := match items[k]
        case Exp(v) => [v]
        case Braces(inner) => ElementsFrom(inner, 0);
      head + ElementsFrom(items, k + 1)
  }

  function Tail(dims: seq<nat>): seq<nat> {
    if dims == [] then [] else dims[1..]
  }

  function Max(a: nat, b: nat): nat {
    if a <= b then b else a
  }

  /** The position behind the items from item k on, the first of them being met at position p: a nested
      brace begins at the next multiple of the size of a row, and is filled up to that size. */
  function EndFrom(items: seq<Init>, k: nat, rest: seq<nat>, p: nat): (r: nat)
    requires k <= |items| && Positive(rest)
    ensures r >= p
    decreases items, |items| - k
  {
    if k == |items| then p
    else
      match items[k]
      case Exp(v) => EndFrom(items, k + 1, rest, p + 1)
      case Braces(inner) =>
        SizePositive(rest);
        var q := p + Gap(p, Size(rest));
        EndFrom(items, k + 1, rest, Max(EndFrom(inner, 0, Tail(rest), q), q + Size(rest)))
  }

  /** The position behind a brace that begins at position q. */
  function After(items: seq<Init>, dims: seq<nat>, q: nat): (r: nat)
    requires Positive(dims)
    ensures r >= q + Size(dims)
  {
    Max(EndFrom(items, 0, Tail(dims), q), q + Size(dims))
  }

  /** The positions that the elements from item k on get. */
  function PlacesFrom(items: seq<Init>, k: nat, rest: seq<nat>, p: nat): (r: seq<nat>)
    requires k <= |items| && Positive(rest)
    ensures |r| == |ElementsFrom(items, k)|
    decreases items, |items| - k
  {
    if k == |items| then []
    else
      match items[k]
      case Exp(v) => [p] + PlacesFrom(items, k + 1, rest, p + 1)
      case Braces(inner) =>
        SizePositive(rest);
        var q := p + Gap(p, Size(rest));
        PlacesFrom(inner, 0, Tail(rest), q) + PlacesFrom(items, k + 1, rest, After(inner, rest, q))
  }

  /** The positions of the elements in a brace that begins at position p. */
  function Places(items: seq<Init>, dims: seq<nat>, p: nat): (r: seq<nat>)
    requires Positive(dims)
    ensures |r| == |ElementsFrom(items, 0)|
  {
    PlacesFrom(items, 0, Tail(dims), p)
  }

  /** The map after elements have been entered one after another. */
  function Put(m: map<nat, Elem>, places: seq<nat>, elems: seq<Elem>): map<nat, Elem>
    requires |places| == |elems|
    decreases places
  {
    if places == [] then m
    else Put(m[places[0] := elems[0]], places[1..], elems[1..])
  }

  lemma {:induction false} PutTwice(m: map<nat, Elem>, p: seq<nat>, e: seq<Elem>, q: seq<nat>, d: seq<Elem>)
    requires |p| == |e| && |q| == |d|
    ensures Put(m, p + q, e + d) == Put(Put(m, p, e), q, d)
    decreases p
  {
    if p == [] {
      assert p + q == q && e + d == d;
    } else {
      assert (p + q)[1..] == p[1..] + q && (e + d)[1..] == e[1..] + d;
      PutTwice(m[p[0] := e[0]], p[1..], e[1..], q, d);
    }
  }

  /** The map that is still to come from item k on. */
  ghost function PutFrom(m: map<nat, Elem>, items: seq<Init>, k: nat, rest: seq<nat>, p: nat): map<nat, Elem>
    requires k <= |items| && Positive(rest)
  {
    Put(m, PlacesFrom(items, k, rest, p), ElementsFrom(items, k))
  }

  lemma NothingLeft(m: map<nat, Elem>, items: seq<Init>, rest: seq<nat>, p: nat)
    requires Positive(rest)
    ensures PutFrom(m, items, |items|, rest, p) == m
  {
  }

  lemma TailPositive(dims: seq<nat>)
    requires Positive(dims)
    ensures Positive(Tail(dims))
  {
  }

  lemma PutExp(m: map<nat, Elem>, items: seq<Init>, k: nat, rest: seq<nat>, p: nat)
    requires k < |items| && items[k].Exp? && Positive(rest)
    ensures PutFrom(m, items, k, rest, p) == PutFrom(m[p := items[k].val], items, k + 1, rest, p + 1)
  {
    hide PlacesFrom, ElementsFrom, Positive;
    PlacesElement(items, k, rest, p);
    var places, elems := PlacesFrom(items, k + 1, rest, p + 1), ElementsFrom(items, k + 1);
    PutTwice(m, [p], [items[k].val], places, elems);
    assert Put(m, [p], [items[k].val]) == m[p := items[k].val];
  }

  lemma PutBraces(m: map<nat, Elem>, items: seq<Init>, k: nat, rest: seq<nat>, p: nat)
    requires k < |items| && items[k].Braces? && Positive(rest)
    ensures Size(rest) > 0 && Positive(Tail(rest))
    ensures var q, inner := p + Gap(p, Size(rest)), items[k].items;
            PutFrom(m, items, k, rest, p)
            == PutFrom(PutFrom(m, inner, 0, Tail(rest), q), items, k + 1, rest, After(inner, rest, q))
  {
    hide PlacesFrom, ElementsFrom, Put, Gap, Size, Positive, Tail, After;
    PlacesBraces(items, k, rest, p);
    ElementsBraces(items, k);
    var q, inner := p + Gap(p, Size(rest)), items[k].items;
    var places, elems := PlacesFrom(items, k + 1, rest, After(inner, rest, q)), ElementsFrom(items, k + 1);
    PutTwice(m, PlacesFrom(inner, 0, Tail(rest), q), ElementsFrom(inner, 0), places, elems);
  }

  lemma NoPlaces(items: seq<Init>, rest: seq<nat>, p: nat)
    requires Positive(rest)
    ensures PlacesFrom(items, |items|, rest, p) == []
  {
  }

  lemma PlacesElement(items: seq<Init>, k: nat, rest: seq<nat>, p: nat)
    requires k < |items| && items[k].Exp? && Positive(rest)
    ensures PlacesFrom(items, k, rest, p) == [p] + PlacesFrom(items, k + 1, rest, p + 1)
    ensures ElementsFrom(items, k) == [items[k].val] + ElementsFrom(items, k + 1)
  {
  }

  lemma PlacesBraces(items: seq<Init>, k: nat, rest: seq<nat>, p: nat)
    requires k < |items| && items[k].Braces? && Positive(rest)
    ensures Size(rest) > 0 && Positive(Tail(rest))
    ensures var q, inner := p + Gap(p, Size(rest)), items[k].items;
            PlacesFrom(items, k, rest, p)
            == PlacesFrom(inner, 0, Tail(rest), q) + PlacesFrom(items, k + 1, rest, After(inner, rest, q))
  {
    hide Gap, Size, Positive, Tail, ElementsFrom, After;
    SizePositive(rest);
    TailPositive(rest);
  }

  lemma EndElement(items: seq<Init>, k: nat, rest: seq<nat>, p: nat)
    requires k < |items| && items[k].Exp? && Positive(rest)
    ensures EndFrom(items, k, rest, p) == EndFrom(items, k + 1, rest, p + 1)
  {
  }

  lemma EndBraces(items: seq<Init>, k: nat, rest: seq<nat>, p: nat)
    requires k < |items| && items[k].Braces? && Positive(rest)
    ensures Size(rest) > 0 && Positive(Tail(rest))
    ensures var q, inner := p + Gap(p, Size(rest)), items[k].items;
            EndFrom(items, k, rest, p) == EndFrom(items, k + 1, rest, After(inner, rest, q))
  {
    hide Gap, Size, Positive, Tail;
    SizePositive(rest);
    TailPositive(rest);
  }

  lemma NoEnd(items: seq<Init>, rest: seq<nat>, p: nat)
    requires Positive(rest)
    ensures EndFrom(items, |items|, rest, p) == p
  {
  }

  lemma ElementsBraces(items: seq<Init>, k: nat)
    requires k < |items| && items[k].Braces?
    ensures ElementsFrom(items, k) == ElementsFrom(items[k].items, 0) + ElementsFrom(items, k + 1)
  {
  }

  /** Braces are not nested deeper than this. */
  predicate DepthOk(items: seq<Init>, depth: nat) {
    forall i :: 0 <= i < |items| && items[i].Braces? ==> depth > 0 && DepthOk(items[i].items, depth - 1)
  }

  /** A position, and the elements that have been entered. */
  datatype Entered = Entered(pos: nat, elems: map<nat, Elem>)

  /** What entering a brace for an array with these bounds does: its elements go to their places, counted
      from the next boundary of its size on. */
  ghost predicate BracesDone(items: seq<Init>, dims: seq<nat>, e0: Entered, e1: Entered)
    requires Positive(dims) && Size(dims) > 0
  {
    var q := e0.pos + Gap(e0.pos, Size(dims));
    e1 == Entered(After(items, dims, q), PutFrom(e0.elems, items, 0, Tail(dims), q))
  }

  // ----- The class -----

  /** The sizes of what the first k subscripts select. */
  ghost predicate SizesOf(sizes: seq<nat>, bounds: seq<nat>) {
    |sizes| == |bounds| + 1 && forall i :: 0 <= i < |sizes| ==> sizes[i] == Size(bounds[i..])
  }

  ghost function PlacedIn(m: map<nat, Elem>, n: nat): (r: seq<Elem>)
    ensures |r| == n && forall p :: 0 <= p < n ==> r[p] == if p in m then m[p] else ZERO
  {
    seq(n, p => if p in m then m[p] else ZERO)
  }

  /** The array that the builder lays out: the elements at their places, and zeros between. */
  ghost function Laid(items: seq<Init>, bounds: seq<nat>): (r: seq<Elem>)
    requires Positive(bounds)
    ensures |r| == Size(bounds)
  {
    PlacedIn(Put(map[], Places(items, bounds, 0), ElementsFrom(items, 0)), Size(bounds))
  }

  lemma NothingLaid(bounds: seq<nat>)
    requires Positive(bounds)
    ensures forall i :: 0 <= i < Size(bounds) ==> Laid([], bounds)[i] == ZERO
  {
  }

  class ArrayBuilder {
    var curDepth: nat
    var curPos: nat
    var arraySizes: seq<nat>
    var initVal: seq<Entry>
    const curType: ElemType
    var initValMap: map<nat, Stored>
    ghost var elems: map<nat, Elem>   // the elements that the map holds, as they are written

    constructor (ty: ElemType)
      ensures curType == ty && Agree()
    {
      curType := ty;
      curDepth, curPos, arraySizes, initVal, initValMap, elems := 0, 0, [], [], map[], map[];
    }

    /** The elements placed so far. */
    ghost function Placed(): (r: seq<Elem>)
      reads this`curPos, this`elems
      ensures |r| == curPos
    {
      PlacedIn(elems, curPos)
    }

    /** Vector and map agree: an absent position is zero. */
    ghost predicate Agree()
      reads this`curPos, this`initVal, this`initValMap, this`elems
    {
      && |initVal| == curPos && (forall p :: p in elems ==> p < curPos)
      && (forall p :: p in initValMap <==> p in elems)
      && (forall p :: p in elems ==> initValMap[p] == Convert(curType, elems[p]))
      && forall p :: 0 <= p < curPos ==> initVal[p] == EntryOf(Convert(curType, Placed()[p]))
    }

    ghost function Now(): Entered
      reads this`curPos, this`elems
    {
      Entered(curPos, elems)
    }

    /** Sizes from the last bound to the first. */
    method ComputeSizes(bounds: seq<nat>) returns (totalSize: nat)
      modifies this`arraySizes
      ensures SizesOf(arraySizes, bounds) && totalSize == Size(bounds)
    {
      arraySizes := [];
      totalSize := 1;
      var i := |bounds|;
      while i > 0
        invariant 0 <= i <= |bounds| && |arraySizes| == |bounds| - i && totalSize == Size(bounds[i..])
        invariant forall j :: 0 <= j < |arraySizes| ==> arraySizes[j] == Size(bounds[i + 1 + j..])
      {
        i := i - 1;
        assert bounds[i..][1..] == bounds[i + 1..];
        arraySizes := [totalSize] + arraySizes;
        totalSize := totalSize * bounds[i];
      }
      arraySizes := [totalSize] + arraySizes;
      assert bounds[0..] == bounds;
    }

    /** One zero, in the vector only. */
    method PadOne()
      requires Agree()
      modifies this`curPos, this`initVal
      ensures Agree() && curPos == old(curPos) + 1 && Placed() == old(Placed()) + [ZERO]
    {
      ghost var before := Placed();
      initVal := initVal + [Known(0.0)];
      curPos := curPos + 1;
      assert forall p :: 0 <= p < |before| ==> Placed()[p] == before[p];
      assert Placed()[|before|] == ZERO;
    }

    method PushElement(v: Elem)
      requires Agree()
      modifies this`curPos, this`initVal, this`initValMap, this`elems
      ensures Agree() && curPos == old(curPos) + 1 && Placed() == old(Placed()) + [v]
      ensures elems == old(elems)[old(curPos) := v]
    {
      ghost var before := Placed();
      initValMap := initValMap[curPos := Convert(curType, v)];
      elems := elems[curPos := v];
      initVal := initVal + [EntryOf(Convert(curType, v))];
      curPos := curPos + 1;
      assert forall p :: 0 <= p < |before| ==> Placed()[p] == before[p];
      assert Placed()[|before|] == v;
    }

    /** Padding to the next multiple of a size. */
    method PadToMultiple(size: nat)
      requires Agree() && size > 0
      modifies this`curPos, this`initVal
      ensures Agree() && curPos == old(curPos) + Gap(old(curPos), size) && OnBoundary(curPos, size)
      ensures Placed() == old(Placed()) + Zeros(Gap(old(curPos), size))
    {
      while curPos % size != 0
        invariant Agree() && old(curPos) <= curPos <= old(curPos) + Gap(old(curPos), size)
        invariant curPos + Gap(curPos, size) == old(curPos) + Gap(old(curPos), size)
        invariant Placed() == old(Placed()) + Zeros(curPos - old(curPos))
        decreases Gap(curPos, size)
      {
        ModNext(curPos, size);
        PadOne();
      }
    }

    method PadTo(end: nat)
      requires Agree()
      modifies this`curPos, this`initVal
      ensures Agree() && curPos == if old(curPos) <= end then end else old(curPos)
      ensures Placed() == old(Placed()) + Zeros(curPos - old(curPos))
    {
      while curPos < end
        invariant Agree() && old(curPos) <= curPos && (curPos <= end || curPos == old(curPos))
        invariant Placed() == old(Placed()) + Zeros(curPos - old(curPos))
      {
        PadOne();
      }
    }

    /** An element, or a brace. */
    method VisitInitVal(node: Init, ghost bounds: seq<nat>)
      requires Agree() && Positive(bounds) && SizesOf(arraySizes, bounds)
      requires node.Braces? ==> curDepth <= |bounds| && DepthOk(node.items, |bounds| - curDepth)
      requires node.Braces? ==> (curDepth == 0 ==> curPos == 0)
      modifies this`curPos, this`curDepth, this`initVal, this`initValMap, this`elems
      ensures Agree() && curDepth == old(curDepth)
      ensures node.Exp? ==> curPos == old(curPos) + 1 && elems == old(elems)[old(curPos) := node.val]
      ensures node.Braces? ==> Positive(bounds[curDepth..]) && Size(bounds[curDepth..]) > 0
      ensures node.Braces? ==> BracesDone(node.items, bounds[curDepth..], old(Now()), Now())
      decreases node, 1
    {
      hide BracesDone, Size, Positive;
      match node
      case Exp(v) => PushElement(v);
      case Braces(items) => VisitBraces(items, bounds);
    }

    method VisitBraces(items: seq<Init>, ghost bounds: seq<nat>)
      requires Agree() && Positive(bounds) && SizesOf(arraySizes, bounds)
      requires curDepth <= |bounds| && DepthOk(items, |bounds| - curDepth) && (curDepth == 0 ==> curPos == 0)
      modifies this`curPos, this`curDepth, this`initVal, this`initValMap, this`elems
      ensures Agree() && curDepth == old(curDepth)
      ensures Positive(bounds[curDepth..]) && Size(bounds[curDepth..]) > 0
      ensures BracesDone(items, bounds[curDepth..], old(Now()), Now())
      decreases items, 2
    {
      hide Agree, Size, Positive, PutFrom, EndFrom, Tail, Gap, SizesOf, DepthOk;
      ghost var dims := bounds[curDepth..];
      PositiveSuffix(bounds, curDepth);
      TailPositive(dims);
      SizePositive(dims);
      SizeAt(arraySizes, bounds, curDepth);
      PadFront();
      var start := curPos;
      VisitItems(items, bounds);
      PadRest(start);
    }

    /** Padding to a boundary: at the outermost level there is nothing to pad. */
    method PadFront()
      requires Agree() && curDepth < |arraySizes| && arraySizes[curDepth] > 0 && (curDepth == 0 ==> curPos == 0)
      modifies this`curPos, this`initVal
      ensures Agree() && curPos == old(curPos) + Gap(old(curPos), arraySizes[curDepth])
      ensures curDepth == 0 ==> curPos == 0
    {
      hide Agree, Placed;
      if curDepth != 0 {
        PadToMultiple(arraySizes[curDepth]);
      }
    }

    /** Padding up to the end of the array that begins at `start`. */
    method PadRest(start: nat)
      requires Agree() && curDepth < |arraySizes| && (curDepth == 0 ==> start == 0)
      modifies this`curPos, this`initVal
      ensures Agree() && curPos == Max(old(curPos), start + arraySizes[curDepth])
    {
      hide Agree, Placed;
      if curDepth != 0 {
        PadTo(start + arraySizes[curDepth]);
      } else {
        PadTo(arraySizes[0]);
      }
    }

    /** The items of a brace, up to the padding behind the last of them. */
    method VisitItems(items: seq<Init>, ghost bounds: seq<nat>)
      requires Agree() && Positive(bounds) && SizesOf(arraySizes, bounds)
      requires curDepth <= |bounds| && DepthOk(items, |bounds| - curDepth)
      modifies this`curPos, this`curDepth, this`initVal, this`initValMap, this`elems
      ensures Agree() && curDepth == old(curDepth) && Positive(Tail(bounds[curDepth..]))
      ensures elems == PutFrom(old(elems), items, 0, Tail(bounds[curDepth..]), old(curPos))
      ensures curPos == EndFrom(items, 0, Tail(bounds[curDepth..]), old(curPos))
      decreases items, 1
    {
      hide Agree, Positive, SizesOf, PutFrom, EndFrom, Tail, DepthOk;
      ghost var rest, start, m0 := Tail(bounds[curDepth..]), curPos, elems;
      PositiveSuffix(bounds, curDepth);
      TailPositive(bounds[curDepth..]);
      for k := 0 to |items|
        invariant Agree() && curDepth == old(curDepth)
        invariant PutFrom(elems, items, k, rest, curPos) == PutFrom(m0, items, 0, rest, start)
        invariant EndFrom(items, k, rest, curPos) == EndFrom(items, 0, rest, start)
      {
        VisitItem(items, k, bounds);
      }
      NothingLeft(elems, items, rest, curPos);
      NoEnd(items, rest, curPos);
    }

    method VisitItem(items: seq<Init>, k: nat, ghost bounds: seq<nat>)
      requires Agree() && Positive(bounds) && SizesOf(arraySizes, bounds) && k < |items| && curDepth <= |bounds|
      requires Positive(Tail(bounds[curDepth..])) && DepthOk(items, |bounds| - curDepth)
      modifies this`curPos, this`curDepth, this`initVal, this`initValMap, this`elems
      ensures Agree() && curDepth == old(curDepth)
      ensures var rest := Tail(bounds[curDepth..]);
              && PutFrom(elems, items, k + 1, rest, curPos) == PutFrom(old(elems), items, k, rest, old(curPos))
              && EndFrom(items, k + 1, rest, curPos) == EndFrom(items, k, rest, old(curPos))
      decreases items, 0
    {
      hide Agree, Size, Gap, Positive, SizesOf, PutFrom, EndFrom, Tail, After, DepthOk;
      ghost var rest := Tail(bounds[curDepth..]);
      ItemDepth(items, k, bounds, curDepth);
      if items[k].Exp? {
        PutExp(elems, items, k, rest, curPos);
        EndElement(items, k, rest, curPos);
      } else {
        PutBraces(elems, items, k, rest, curPos);
        EndBraces(items, k, rest, curPos);
      }
      curDepth := curDepth + 1;
      VisitInitVal(items[k], bounds);
      curDepth := curDepth - 1;
    }

    /** The initializer of an array from the outermost brace. */
    method Initialize(bounds: seq<nat>, items: seq<Init>) returns (total: nat)
      requires Positive(bounds) && DepthOk(items, |bounds|)
      modifies this
      ensures total == Size(bounds) && Agree() && curPos == After(items, bounds, 0)
      ensures elems == Put(map[], Places(items, bounds, 0), ElementsFrom(items, 0))
    {
      hide Size, Positive, Gap, OnBoundary, Put, PlacesFrom, ElementsFrom, SizesOf, DepthOk, After;
      total := ComputeSizes(bounds);
      curDepth, curPos, initVal, initValMap, elems := 0, 0, [], map[], map[];
      assert bounds[0..] == bounds;
      VisitBraces(items, bounds);
      StartsAligned(bounds, 0);
    }

    /** A local array: one store for each position, of what the map has there or of zero. */
    method LocalArray(bounds: seq<nat>, items: seq<Init>) returns (stores: seq<Stored>)
      requires Positive(bounds) && DepthOk(items, |bounds|)
      modifies this
      ensures stores == ConvertAll(curType, Laid(items, bounds)) && |stores| == Size(bounds)
      ensures Fill(items, bounds).Some? ==> stores == ConvertAll(curType, Flatten(Fill(items, bounds).value))
    {
      hide Fill, Flatten, Size, Places, ElementsFrom, Put, Positive, DepthOk, After;
      var total := Initialize(bounds, items);
      stores := [];
      for i := 0 to total
        invariant |stores| == i && forall j :: 0 <= j < i ==> stores[j] == Convert(curType, Laid(items, bounds)[j])
      {
        stores := stores + [if i in initValMap then initValMap[i] else Number(0.0)];
      }
      if Fill(items, bounds).Some? { FillIsLaid(items, bounds); }
    }

    /** A global array: the dense vector cut to the size of the array, or the zero constant for an empty brace. */
    method GlobalArray(bounds: seq<nat>, items: seq<Init>) returns (entries: seq<Entry>)
      requires Positive(bounds) && DepthOk(items, |bounds|)
      modifies this
      ensures |entries| == Size(bounds)
      ensures forall i :: 0 <= i < |entries| ==> IsEntry(curType, Laid(items, bounds)[i], entries[i])
      ensures Fill(items, bounds).Some? ==> Laid(items, bounds) == Flatten(Fill(items, bounds).value)
    {
      hide IsEntry, EntryOf, Convert, Fill, Flatten, Size, Places, ElementsFrom, Put, Positive, DepthOk, After,
           ConvertAll;
      if Fill(items, bounds).Some? { FillIsLaid(items, bounds); }
      if items == [] {
        var total := ComputeSizes(bounds);
        NothingLaid(bounds);
        ZeroEntry(curType);
        return seq(total, i => Known(0.0));
      }
      var total := Initialize(bounds, items);
      entries := initVal[..total];
      forall i | 0 <= i < |entries|
        ensures IsEntry(curType, Laid(items, bounds)[i], entries[i])
      {
        EntryIsNumeric(curType, Laid(items, bounds)[i]);
      }
    }

    /** The index of an element as `visit(ASTLVal)` computes it, a size of one left out of the product. */
    static method LValIndex(subs: seq<nat>, sizes: seq<nat>, ghost bounds: seq<nat>) returns (index: nat)
      requires 0 < |subs| <= |bounds| && SizesOf(sizes, bounds)
      ensures index == Offset(subs, bounds)
    {
      hide *;
      index := 0;
      NoOffset(subs, bounds);
      SizesLength(sizes, bounds);
      for i := 0 to |subs|
        invariant index == Offset(subs[..i], bounds)
      {
        var part := if sizes[i + 1] != 1 then subs[i] * sizes[i + 1] else subs[i];
        OffsetNext(subs, sizes, bounds, i, part);
        index := if i == 0 then part else index + part;
      }
      assert subs[..|subs|] == subs;
    }
  }

  lemma NoOffset(subs: seq<nat>, bounds: seq<nat>)
    ensures Offset(subs[..0], bounds) == 0
  {
  }

  lemma SizesLength(sizes: seq<nat>, bounds: seq<nat>)
    requires SizesOf(sizes, bounds)
    ensures |sizes| == |bounds| + 1
  {
  }

  lemma OffsetNext(subs: seq<nat>, sizes: seq<nat>, bounds: seq<nat>, i: nat, part: nat)
    requires i < |subs| <= |bounds| && SizesOf(sizes, bounds)
    requires part == if sizes[i + 1] != 1 then subs[i] * sizes[i + 1] else subs[i]
    ensures Offset(subs[..i + 1], bounds) == Offset(subs[..i], bounds) + part
    ensures i == 0 ==> Offset(subs[..i], bounds) == 0
  {
    hide *;
    SizeAt(sizes, bounds, i + 1);
    UnitFactor(subs[i], sizes[i + 1]);
    OffsetSnoc(subs[..i], subs[i], bounds);
    assert subs[..i] + [subs[i]] == subs[..i + 1];
    if i == 0 { NoOffset(subs, bounds); }
  }

  lemma SizeAt(sizes: seq<nat>, bounds: seq<nat>, i: nat)
    requires SizesOf(sizes, bounds) && i <= |bounds|
    ensures i < |sizes| && sizes[i] == Size(bounds[i..])
  {
  }

  lemma UnitFactor(x: nat, size: nat)
    ensures x * size == if size != 1 then x * size else x
  {
  }

  lemma {:induction false} OffsetSnoc(subs: seq<nat>, x: nat, dims: seq<nat>)
    requires |subs| < |dims|
    ensures Offset(subs + [x], dims) == Offset(subs, dims) + x * Size(dims[|subs| + 1..])
  {
    if subs != [] {
      assert (subs + [x])[1..] == subs[1..] + [x];
      OffsetSnoc(subs[1..], x, dims[1..]);
      assert dims[1..][|subs[1..]| + 1..] == dims[|subs| + 1..];
    }
  }

  lemma WholeArray(items: seq<Init>, bounds: seq<nat>)
    requires Positive(bounds) && Fill(items, bounds).Some?
    ensures HasShape(Fill(items, bounds).value, bounds) && |Flatten(Fill(items, bounds).value)| == Size(bounds) > 0
  {
    FillShape(items, bounds);
    FlattenSize(Fill(items, bounds).value, bounds);
    SizePositive(bounds);
  }

  /** The store at the index that an array access computes is the element of the nested array at its
      subscripts. */
  lemma InitializedElement(items: seq<Init>, bounds: seq<nat>, subs: seq<nat>)
    requires Positive(bounds) && Fill(items, bounds).Some? && InBounds(subs, bounds)
    ensures HasShape(Fill(items, bounds).value, bounds) && Offset(subs, bounds) < |Flatten(Fill(items, bounds).value)|
    ensures Flatten(Fill(items, bounds).value)[Offset(subs, bounds)]
            == ElementAt(Fill(items, bounds).value, subs, bounds)
  {
    FillShape(items, bounds);
    RowMajor(Fill(items, bounds).value, subs, bounds);
  }

  /** At the outermost level there is nothing to pad. */
  lemma StartsAligned(bounds: seq<nat>, d: nat)
    requires d <= |bounds| && Size(bounds[d..]) > 0
    ensures Gap(0, Size(bounds[d..])) == 0 && OnBoundary(0, Size(bounds[d..]))
  {
  }

  lemma PositiveSuffix(bounds: seq<nat>, d: nat)
    requires Positive(bounds) && d <= |bounds|
    ensures Positive(bounds[d..])
  {
  }

  lemma ItemDepth(items: seq<Init>, k: nat, bounds: seq<nat>, depth: nat)
    requires k < |items| && depth <= |bounds| && DepthOk(items, |bounds| - depth)
    ensures items[k].Braces? ==>
              depth < |bounds| && Tail(bounds[depth..]) == bounds[depth + 1..]
              && DepthOk(items[k].items, |bounds| - (depth + 1))
  {
  }

  lemma SameSum(a: seq<Elem>, b: seq<Elem>, c: seq<Elem>)
    ensures a + b + c == a + (b + c)
  {
  }

  /** What the items of a brace have placed after the first k of them. */
  ghost predicate ItemsPlaced(items: seq<Init>, dims: seq<nat>, k: nat, done: seq<Nest>, partial: seq<Elem>,
      used: seq<Elem>) {
    if dims == [] then
      k <= |items| && (items == [] || (|items| == 1 && items[0].Exp?)) && used == if k == 0 then [] else [items[0].val]
    else Progress(items, dims[1..], k, done, partial) && used == FlattenAll(done) + partial
  }

  lemma ItemsBegin(items: seq<Init>, dims: seq<nat>)
    requires Positive(dims) && Fill(items, dims).Some?
    ensures ItemsPlaced(items, dims, 0, [], [], [])
  {
    if dims != [] { ProgressBegins(items, dims); }
  }

  lemma ItemsExp(items: seq<Init>, dims: seq<nat>, k: nat, done: seq<Nest>, partial: seq<Elem>, used: seq<Elem>,
      v: Elem)
    returns (done': seq<Nest>, partial': seq<Elem>)
    requires ItemsPlaced(items, dims, k, done, partial, used) && k < |items| && items[k] == Exp(v)
    ensures ItemsPlaced(items, dims, k + 1, done', partial', used + [v])
  {
    done', partial' := done, partial;
    if dims != [] {
      ProgressExp(items, dims[1..], k, done, partial, v);
      var p := partial + [v];
      if |p| == Size(dims[1..]) {
        done', partial' := done + [Shape(p, dims[1..])], [];
        assert FlattenAll(done') + [] == FlattenAll(done) + p;
      } else {
        partial' := p;
      }
      assert FlattenAll(done) + p == used + [v];
    }
  }

  lemma ItemsBraces(items: seq<Init>, dims: seq<nat>, k: nat, done: seq<Nest>, partial: seq<Elem>, used: seq<Elem>,
      inner: seq<Init>, start: nat)
    returns (done': seq<Nest>)
    requires ItemsPlaced(items, dims, k, done, partial, used) && k < |items| && items[k] == Braces(inner)
    requires Size(dims) > 0 && OnBoundary(start, Size(dims))
    ensures dims != [] && Fill(inner, dims[1..]).Some? && Size(dims[1..]) > 0
    ensures ItemsPlaced(items, dims, k + 1, done', [],
            used + Zeros(Gap(start + |used|, Size(dims[1..]))) + Flatten(Fill(inner, dims[1..]).value))
  {
    assert |partial| < Size(dims[1..]);
    hide Progress, Fill, CloseRow, Flatten, Positive, Size, Gap, OnBoundary;
    var rest := dims[1..];
    ProgressBraces(items, rest, k, done, partial, inner);
    BracesGap(items, dims, k, done, partial, start);
    done' := done + CloseRow(partial, rest) + [Fill(inner, rest).value];
    assert FlattenAll(done') + [] == FlattenAll(done');
  }

  lemma BracesGap(items: seq<Init>, dims: seq<nat>, k: nat, done: seq<Nest>, partial: seq<Elem>, start: nat)
    requires dims != [] && Progress(items, dims[1..], k, done, partial)
    requires Size(dims) > 0 && OnBoundary(start, Size(dims))
    ensures var size := Size(dims[1..]);
            && size > 0
            && |CloseRow(partial, dims[1..])| * size - |partial| == Gap(start + |FlattenAll(done) + partial|, size)
  {
    var rest := dims[1..];
    SizePositive(rest);
    FlattenAllSize(done, rest);
    assert |CloseRow(partial, rest)| == if partial == [] then 0 else 1;
    assert Size(dims) == dims[0] * Size(rest) && |partial| < Size(rest);
    hide *;
    GapInRow(start, dims[0], Size(rest), |done|, |partial|);
  }

  lemma GapInRow(start: nat, n: nat, size: nat, rows: nat, part: nat)
    requires size > 0 && n * size > 0 && OnBoundary(start, n * size) && part < size
    ensures Gap(start + (rows * size + part), size) == if part == 0 then 0 else size - part
  {
    var m := start / (n * size);
    assert start == m * (n * size);
    assert m * (n * size) == (m * n) * size;
    assert start + (rows * size + part) == (m * n + rows) * size + part;
    ModIs(start + (rows * size + part), m * n + rows, size, part);
  }

  lemma ItemsEnd(items: seq<Init>, dims: seq<nat>, done: seq<Nest>, partial: seq<Elem>, used: seq<Elem>)
    requires Positive(dims) && Fill(items, dims).Some? && ItemsPlaced(items, dims, |items|, done, partial, used)
    ensures |used| <= Size(dims) && Flatten(Fill(items, dims).value) == used + Zeros(Size(dims) - |used|)
  {
    hide Fill, Flatten, Size, Progress, Positive, Zeros;
    if dims == [] {
      LeafEnd(items, used);
    } else {
      ProgressEnds(items, dims, done, partial);
    }
  }

  // ----- What fits is laid out as it stands -----

  /** The elements entered before position p are these. */
  ghost predicate LaidSoFar(m: map<nat, Elem>, p: nat, l: seq<Elem>) {
    PlacedIn(m, p) == l && forall x :: x in m ==> x < p
  }

  lemma LaidElement(m: map<nat, Elem>, p: nat, l: seq<Elem>, v: Elem)
    requires LaidSoFar(m, p, l)
    ensures LaidSoFar(m[p := v], p + 1, l + [v])
  {
    assert PlacedIn(m[p := v], p + 1)[..p] == PlacedIn(m, p);
  }

  lemma LaidZeros(m: map<nat, Elem>, p: nat, l: seq<Elem>, n: nat)
    requires LaidSoFar(m, p, l)
    ensures LaidSoFar(m, p + n, l + Zeros(n))
  {
  }

  lemma {:induction false} ItemsLaid(items: seq<Init>, k: nat, dims: seq<nat>, start: nat, m: map<nat, Elem>,
      done: seq<Nest>, partial: seq<Elem>, used: seq<Elem>, base: seq<Elem>)
    requires Positive(dims) && Positive(Tail(dims)) && Fill(items, dims).Some? && k <= |items|
    requires Size(dims) > 0 && OnBoundary(start, Size(dims))
    requires ItemsPlaced(items, dims, k, done, partial, used) && LaidSoFar(m, start + |used|, base + used)
    ensures EndFrom(items, k, Tail(dims), start + |used|) <= start + Size(dims)
    ensures LaidSoFar(PutFrom(m, items, k, Tail(dims), start + |used|), start + Size(dims),
                      base + Flatten(Fill(items, dims).value))
    decreases items, |items| - k
  {
    hide Fill, Flatten, Size, Gap, OnBoundary, EndFrom, PutFrom, Tail, ItemsPlaced, LaidSoFar, Zeros, Positive;
    var rest, p := Tail(dims), start + |used|;
    if k == |items| {
      ItemsEnd(items, dims, done, partial, used);
      NoEnd(items, rest, p);
      NothingLeft(m, items, rest, p);
      LaidZeros(m, p, base + used, Size(dims) - |used|);
      SameSum(base, used, Zeros(Size(dims) - |used|));
    } else if items[k].Exp? {
      var v := items[k].val;
      var done', partial' := ItemsExp(items, dims, k, done, partial, used, v);
      EndElement(items, k, rest, p);
      PutExp(m, items, k, rest, p);
      LaidElement(m, p, base + used, v);
      SameSum(base, used, [v]);
      ItemsLaid(items, k + 1, dims, start, m[p := v], done', partial', used + [v], base);
    } else {
      BracesLaid(items, k, dims, start, m, done, partial, used, base);
    }
  }

  lemma {:induction false} BracesLaid(items: seq<Init>, k: nat, dims: seq<nat>, start: nat, m: map<nat, Elem>,
      done: seq<Nest>, partial: seq<Elem>, used: seq<Elem>, base: seq<Elem>)
    requires Positive(dims) && Positive(Tail(dims)) && Fill(items, dims).Some? && k < |items| && items[k].Braces?
    requires Size(dims) > 0 && OnBoundary(start, Size(dims))
    requires ItemsPlaced(items, dims, k, done, partial, used) && LaidSoFar(m, start + |used|, base + used)
    ensures EndFrom(items, k, Tail(dims), start + |used|) <= start + Size(dims)
    ensures LaidSoFar(PutFrom(m, items, k, Tail(dims), start + |used|), start + Size(dims),
                      base + Flatten(Fill(items, dims).value))
    decreases items, |items| - k, 0
  {
    hide Fill, Flatten, Size, Gap, OnBoundary, EndFrom, PutFrom, ItemsPlaced, LaidSoFar, Zeros, Positive;
    var rest, p, inner := Tail(dims), start + |used|, items[k].items;
    var done' := ItemsBraces(items, dims, k, done, partial, used, inner, start);
    EndBraces(items, k, rest, p);
    PutBraces(m, items, k, rest, p);
    var gap := Gap(p, Size(rest));
    var q, zeros, sub := p + gap, Zeros(gap), Flatten(Fill(inner, rest).value);
    GapBoundary(p, Size(rest));
    LaidZeros(m, p, base + used, gap);
    ItemsBegin(inner, rest);
    assert q + 0 == q && base + used + zeros + [] == base + used + zeros;
    ItemsLaid(inner, 0, rest, q, m, [], [], [], base + used + zeros);
    var m1 := PutFrom(m, inner, 0, Tail(rest), q);
    WholeArray(inner, rest);
    SameSums(base, used, zeros, sub);
    assert After(inner, rest, q) == q + Size(rest) == start + |used + zeros + sub|;
    ItemsLaid(items, k + 1, dims, start, m1, done', [], used + zeros + sub, base);
  }

  lemma SameSums(a: seq<Elem>, b: seq<Elem>, c: seq<Elem>, d: seq<Elem>)
    ensures a + b + c + d == a + (b + c + d)
  {
  }

  lemma GapBoundary(p: nat, size: nat)
    requires size > 0
    ensures OnBoundary(p + Gap(p, size), size)
  {
    if p % size == 0 {
    } else {
      assert p + Gap(p, size) == (p / size + 1) * size;
      ModIs(p + Gap(p, size), p / size + 1, size, 0);
    }
  }

  /** An initializer that fits is laid out as the nested array that it stands for. */
  lemma FillIsLaid(items: seq<Init>, bounds: seq<nat>)
    requires Positive(bounds) && Fill(items, bounds).Some?
    ensures Laid(items, bounds) == Flatten(Fill(items, bounds).value)
    ensures After(items, bounds, 0) == Size(bounds)
  {
    hide Fill, Flatten, Size, Gap, OnBoundary, EndFrom, PlacesFrom, ElementsFrom, Tail, ItemsPlaced, Zeros, Positive,
         Put;
    SizePositive(bounds);
    TailPositive(bounds);
    ZeroBoundary(Size(bounds));
    ItemsBegin(items, bounds);
    var none: seq<Elem> := [];
    assert PlacedIn(map[], 0) == none + none;
    ItemsLaid(items, 0, bounds, 0, map[], [], [], [], none);
    assert none + Flatten(Fill(items, bounds).value) == Flatten(Fill(items, bounds).value);
  }

  lemma ZeroBoundary(size: nat)
    requires size > 0
    ensures OnBoundary(0, size)
  {
  }

  lemma LeafEnd(items: seq<Init>, used: seq<Elem>)
    requires items == [] || (|items| == 1 && items[0].Exp?)
    requires used == if items == [] then [] else [items[0].val]
    ensures |used| <= Size([]) && Flatten(Fill(items, []).value) == used + Zeros(Size([]) - |used|)
  {
  }

  predicate OnBoundary(p: nat, size: nat)
    requires size > 0
  {
    p % size == 0
  }

  /** How far it is to the next multiple. */
  function Gap(p: nat, size: nat): nat
    requires size > 0
  {
    if p % size == 0 then 0 else size - p % size
  }

  lemma ModNext(p: nat, size: nat)
    requires size > 0
    ensures (p + 1) % size == if p % size == size - 1 then 0 else p % size + 1
  {
    if p % size == size - 1 {
      ModIs(p + 1, p / size + 1, size, 0);
    } else {
      ModIs(p + 1, p / size, size, p % size + 1);
    }
  }
}
