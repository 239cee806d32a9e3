/** The places that C gives to the elements of a nested initializer, and when the builder gives the same. */
module InitLayout {
  import opened Arithmetic
  import opened Ir
  import opened ArrayInit

  // ----- C: braces may be left out -----

  /** The places of some elements, and the first item that has not been used for them. */
  datatype Taken = Taken(places: seq<nat>, next: nat)

  /** One sub-array with these bounds, initialized by the items from k on: a brace initializes it as a
      whole; without one it takes only as many items as it has room for (section 6.7.9 of the C standard,
      paragraph 20). */
  function TakeOne(items: seq<Init>, k: nat, dims: seq<nat>, p: nat): (r: Option<Taken>)
    requires k < |items|
    ensures r.Some? ==> k <= r.value.next <= |items|
    decreases items, |dims|, 0
  {
    match items[k]
    case Braces(inner) =>
      var places := BracedPlaces(inner, dims, p);
      if places.Some? then Some(Taken(places.value, k + 1)) else None
    case Exp(_) =>
      if dims == [] then Some(Taken([p], k + 1)) else TakeRows(items, k, dims[0], dims[1..], p)
  }

  /** Up to n sub-arrays, one after another from position p on. */
  function TakeRows(items: seq<Init>, k: nat, n: nat, rest: seq<nat>, p: nat): (r: Option<Taken>)
    requires k <= |items|
    ensures r.Some? ==> k <= r.value.next <= |items|
    decreases items, |rest|, n
  {
    if n == 0 || k == |items| then Some(Taken([], k))
    else
      var row := TakeOne(items, k, rest, p);
      if row.None? then None
      else
        var more := TakeRows(items, row.value.next, n - 1, rest, p + Size(rest));
        if more.Some? then Some(Taken(row.value.places + more.value.places, more.value.next)) else None
  }

  /** The places of the elements in braces for an array with these bounds at position p. None if they do
      not fit, and if an element is given more than one value. */
  function BracedPlaces(items: seq<Init>, dims: seq<nat>, p: nat): Option<seq<nat>>
    decreases items, |dims|, 0
  {
    if dims == [] then
      if items == [] then Some([])
      else if |items| == 1 && items[0].Exp? then Some([p])
      else None
    else
      var r := TakeRows(items, 0, dims[0], dims[1..], p);
      if r.Some? && r.value.next == |items| then Some(r.value.places) else None
  }

  // ----- The same by position -----

  /** What a brace met at position p initializes: the largest sub-array that begins there. */
  function SubAt(dims: seq<nat>, p: nat): (r: seq<nat>)
    requires Positive(dims) && dims != []
    ensures Positive(r) && |r| < |dims|
  {
    SizePositive(dims[1..]);
    if OnBoundary(p, Size(dims[1..])) then dims[1..] else SubAt(dims[1..], p)
  }

  function Before(places: seq<nat>, more: Option<seq<nat>>): Option<seq<nat>> {
    if more.Some? then Some(places + more.value) else None
  }

  /** The places of the elements from item k on, item k being met at position p. */
  function Walk(items: seq<Init>, k: nat, dims: seq<nat>, p: nat, end: nat): Option<seq<nat>>
    requires k <= |items| && Positive(dims) && dims != []
    decreases |items| - k
  {
    if k == |items| then Some([])
    else if p >= end then None
    else
      match items[k]
      case Exp(_) => Before([p], Walk(items, k + 1, dims, p + 1, end))
      case Braces(inner) =>
        var places := BracedPlaces(inner, SubAt(dims, p), p);
        if places.None? then None
        else Before(places.value, Walk(items, k + 1, dims, p + Size(SubAt(dims, p)), end))
  }

  // ----- Boundaries -----

  lemma SizeSplits(dims: seq<nat>, j: nat)
    requires Positive(dims) && j < |dims|
    ensures Size(dims[j..]) == dims[j] * Size(dims[j + 1..]) && dims[j] > 0
    ensures Size(dims[j + 1..]) > 0 && Size(dims[j..]) >= Size(dims[j + 1..])
  {
    assert dims[j..][1..] == dims[j + 1..];
    SizePositive(dims[j + 1..]);
    MulAtLeast(dims[j], Size(dims[j + 1..]));
  }

  lemma InnerBoundary(p: nat, n: nat, size: nat)
    requires n > 0 && size > 0 && n * size > 0 && OnBoundary(p, n * size)
    ensures OnBoundary(p, size)
  {
    var m := p / (n * size);
    assert p == m * (n * size) == (m * n) * size;
    ModIs(p, m * n, size, 0);
  }

  lemma NextBoundary(p: nat, size: nat)
    requires size > 0 && OnBoundary(p, size)
    ensures OnBoundary(p + size, size)
  {
    assert p + size == (p / size + 1) * size;
    ModIs(p + size, p / size + 1, size, 0);
  }

  /** Strictly between two boundaries there is none. */
  lemma NoBoundary(base: nat, p: nat, size: nat)
    requires size > 0 && OnBoundary(base, size) && base < p < base + size
    ensures !OnBoundary(p, size)
  {
    ModIs(p, base / size, size, p - base);
  }

  lemma {:induction false} OuterBoundary(dims: seq<nat>, i: nat, j: nat, p: nat)
    requires Positive(dims) && i <= j <= |dims|
    ensures Size(dims[i..]) > 0 && Size(dims[j..]) > 0
    ensures OnBoundary(p, Size(dims[i..])) ==> OnBoundary(p, Size(dims[j..]))
    decreases j - i
  {
    hide Size, OnBoundary;
    SizePositive(dims[i..]);
    SizePositive(dims[j..]);
    if i < j {
      OuterBoundary(dims, i + 1, j, p);
      SizeSplits(dims, i);
      if OnBoundary(p, Size(dims[i..])) { InnerBoundary(p, dims[i], Size(dims[i + 1..])); }
    }
  }

  /** Where a sub-array of depth j begins and no larger one does, a brace initializes it. */
  lemma {:induction false} SubAtIs(dims: seq<nat>, i: nat, j: nat, p: nat)
    requires Positive(dims) && i < j <= |dims|
    requires Size(dims[j..]) > 0 && OnBoundary(p, Size(dims[j..]))
    requires i + 1 < j ==> Size(dims[j - 1..]) > 0 && !OnBoundary(p, Size(dims[j - 1..]))
    ensures SubAt(dims[i..], p) == dims[j..]
    decreases j - i
  {
    hide Size, OnBoundary;
    assert dims[i..][1..] == dims[i + 1..];
    if i + 1 < j {
      OuterBoundary(dims, i + 1, j - 1, p);
      SubAtIs(dims, i + 1, j, p);
    }
  }

  // ----- Taking rows is walking -----

  /** n sub-arrays of depth j from position p on lie in the one of depth j - 1 that begins at `base`. */
  ghost predicate InRow(dims: seq<nat>, j: nat, base: nat, p: nat, n: nat) {
    && Positive(dims) && 1 <= j <= |dims| && Size(dims[j..]) > 0 && Size(dims[j - 1..]) > 0
    && OnBoundary(base, Size(dims[j - 1..])) && OnBoundary(p, Size(dims[j..]))
    && base <= p && p + n * Size(dims[j..]) <= base + Size(dims[j - 1..])
  }

  lemma NextInRow(dims: seq<nat>, j: nat, base: nat, p: nat, n: nat)
    requires InRow(dims, j, base, p, n) && n > 0
    ensures InRow(dims, j, base, p + Size(dims[j..]), n - 1)
    ensures base < p + Size(dims[j..]) <= base + Size(dims[j - 1..])
    ensures p + Size(dims[j..]) + (n - 1) * Size(dims[j..]) == p + n * Size(dims[j..])
  {
    hide Size, OnBoundary;
    NextBoundary(p, Size(dims[j..]));
    MulAtLeast(n, Size(dims[j..]));
  }

  /** A sub-array without braces is a row of its own. */
  lemma RowInRow(dims: seq<nat>, j: nat, base: nat, p: nat, n: nat)
    requires InRow(dims, j, base, p, n) && j < |dims|
    ensures InRow(dims, j + 1, p, p, dims[j]) && p + dims[j] * Size(dims[j + 1..]) == p + Size(dims[j..])
    ensures dims[j..] != [] && dims[j..][0] == dims[j] && dims[j..][1..] == dims[j + 1..]
  {
    hide Size, OnBoundary;
    SizeSplits(dims, j);
    InnerBoundary(p, dims[j], Size(dims[j + 1..]));
  }

  lemma SubInRow(dims: seq<nat>, j: nat, base: nat, p: nat, n: nat)
    requires InRow(dims, j, base, p, n) && n > 0 && (j == 1 || p > base)
    ensures SubAt(dims, p) == dims[j..]
  {
    hide Size, OnBoundary;
    assert dims[0..] == dims;
    NextInRow(dims, j, base, p, n);
    if j > 1 { NoBoundary(base, p, Size(dims[j - 1..])); }
    SubAtIs(dims, 0, j, p);
  }

  /** The walk from item k on is the rows that are taken and then the walk from where they end. */
  ghost predicate WalkTakes(items: seq<Init>, k: nat, dims: seq<nat>, p: nat, end: nat, r: Option<Taken>, q: nat)
    requires k <= |items| && Positive(dims) && dims != []
  {
    if r.None? then Walk(items, k, dims, p, end).None?
    else
      && r.value.next <= |items|
      && Walk(items, k, dims, p, end) == Before(r.value.places, Walk(items, r.value.next, dims, q, end))
  }

  lemma {:induction false} RowsWalk(items: seq<Init>, k: nat, n: nat, dims: seq<nat>, j: nat, base: nat, p: nat,
      end: nat)
    requires InRow(dims, j, base, p, n) && k <= |items| && base + Size(dims[j - 1..]) <= end
    requires j > 1 && p == base ==> k < |items| && items[k].Exp?
    ensures WalkTakes(items, k, dims, p, end, TakeRows(items, k, n, dims[j..], p), p + n * Size(dims[j..]))
    decreases |dims| - j, n, 1
  {
    hide Size, OnBoundary, Walk, TakeOne, WalkTakes, Positive;
    if n > 0 && k < |items| {
      NextInRow(dims, j, base, p, n);
      OneWalk(items, k, n, dims, j, base, p, end);
      var row, q := TakeOne(items, k, dims[j..], p), p + Size(dims[j..]);
      if row.Some? { RowsWalk(items, row.value.next, n - 1, dims, j, base, q, end); }
      RowsJoin(items, k, n, dims, dims[j..], p, end, p + n * Size(dims[j..]));
    } else {
      NoRows(items, k, dims, p, end, p + n * Size(dims[j..]));
    }
  }

  lemma NoRows(items: seq<Init>, k: nat, dims: seq<nat>, p: nat, end: nat, q: nat)
    requires k <= |items| && Positive(dims) && dims != [] && (q == p || k == |items|)
    ensures WalkTakes(items, k, dims, p, end, Some(Taken([], k)), q)
  {
    var w := Walk(items, k, dims, q, end);
    assert w.Some? ==> [] + w.value == w.value;
  }

  lemma {:induction false} OneWalk(items: seq<Init>, k: nat, n: nat, dims: seq<nat>, j: nat, base: nat, p: nat,
      end: nat)
    requires InRow(dims, j, base, p, n) && n > 0 && k < |items| && base + Size(dims[j - 1..]) <= end
    requires j > 1 && p == base ==> items[k].Exp?
    ensures WalkTakes(items, k, dims, p, end, TakeOne(items, k, dims[j..], p), p + Size(dims[j..]))
    decreases |dims| - j, n, 0
  {
    hide Size, OnBoundary, Walk, TakeRows, TakeOne, SubAt, WalkTakes, BracedPlaces, Positive;
    NextInRow(dims, j, base, p, n);
    if items[k].Braces? {
      SubInRow(dims, j, base, p, n);
      BracesWalk(items, k, dims, dims[j..], p, end);
    } else if j == |dims| {
      ElementWalk(items, k, dims, dims[j..], p, end);
    } else {
      RowInRow(dims, j, base, p, n);
      RowsWalk(items, k, dims[j], dims, j + 1, p, p, end);
      ElidedIs(items, k, dims[j..], p);
    }
  }

  lemma ElidedIs(items: seq<Init>, k: nat, dims: seq<nat>, p: nat)
    requires k < |items| && items[k].Exp? && dims != []
    ensures TakeOne(items, k, dims, p) == TakeRows(items, k, dims[0], dims[1..], p)
  {
  }

  lemma BracesWalk(items: seq<Init>, k: nat, dims: seq<nat>, sub: seq<nat>, p: nat, end: nat)
    requires k < |items| && items[k].Braces? && p < end && Positive(dims) && dims != [] && SubAt(dims, p) == sub
    ensures WalkTakes(items, k, dims, p, end, TakeOne(items, k, sub, p), p + Size(sub))
  {
    hide SubAt, Size, BracedPlaces;
  }

  lemma ElementWalk(items: seq<Init>, k: nat, dims: seq<nat>, sub: seq<nat>, p: nat, end: nat)
    requires k < |items| && items[k].Exp? && p < end && Positive(dims) && dims != [] && sub == []
    ensures WalkTakes(items, k, dims, p, end, TakeOne(items, k, sub, p), p + Size(sub))
  {
  }

  lemma RowsJoin(items: seq<Init>, k: nat, n: nat, dims: seq<nat>, rest: seq<nat>, p: nat, end: nat, last: nat)
    requires k < |items| && n > 0 && Positive(dims) && dims != []
    requires var row, q := TakeOne(items, k, rest, p), p + Size(rest);
             && WalkTakes(items, k, dims, p, end, row, q)
             && (row.Some? ==> WalkTakes(items, row.value.next, dims, q, end,
                                         TakeRows(items, row.value.next, n - 1, rest, q), last))
    ensures WalkTakes(items, k, dims, p, end, TakeRows(items, k, n, rest, p), last)
  {
    hide Walk, TakeOne, Size;
    var row := TakeOne(items, k, rest, p);
    if row.Some? {
      var more := TakeRows(items, row.value.next, n - 1, rest, p + Size(rest));
      if more.Some? {
        BeforeTwice(row.value.places, more.value.places, Walk(items, more.value.next, dims, last, end));
      }
    }
  }

  lemma BeforeTwice(a: seq<nat>, b: seq<nat>, more: Option<seq<nat>>)
    ensures Before(a, Before(b, more)) == Before(a + b, more)
  {
    if more.Some? { assert a + (b + more.value) == a + b + more.value; }
  }

  /** In braces, C gives the places of the walk. */
  lemma BracedIsWalk(items: seq<Init>, dims: seq<nat>, p: nat)
    requires Positive(dims) && dims != [] && Size(dims) > 0 && OnBoundary(p, Size(dims))
    ensures BracedPlaces(items, dims, p) == Walk(items, 0, dims, p, p + Size(dims))
  {
    hide Size, OnBoundary;
    var end := p + Size(dims);
    assert dims[0..] == dims;
    SizeSplits(dims, 0);
    InnerBoundary(p, dims[0], Size(dims[1..]));
    RowsWalk(items, 0, dims[0], dims, 1, p, p, end);
    var r := TakeRows(items, 0, dims[0], dims[1..], p);
    if r.Some? {
      assert Walk(items, |items|, dims, end, end) == Some([]);
      assert r.value.places + [] == r.value.places;
    }
  }

  // ----- Where places lie -----

  lemma NextMultiple(p: nat, size: nat, b: nat)
    requires size > 0 && OnBoundary(b, size)
    ensures OnBoundary(p + Gap(p, size), size)
    ensures p <= b ==> p + Gap(p, size) <= b
    ensures p < b && OnBoundary(p, size) ==> p + size <= b
  {
    hide OnBoundary, Gap;
    if OnBoundary(p, size) {
      NoGap(p, size);
      if p < b { BoundaryStep(p, b, size); }
    } else {
      var base := RowBegun(p, size);
      NextBoundary(base, size);
      if p <= b { BoundaryStep(base, b, size); }
    }
  }

  lemma NoGap(p: nat, size: nat)
    requires size > 0 && OnBoundary(p, size)
    ensures Gap(p, size) == 0
  {
  }

  lemma BoundaryStep(a: nat, b: nat, size: nat)
    requires size > 0 && OnBoundary(a, size) && OnBoundary(b, size) && a < b
    ensures a + size <= b
  {
    Ordered(a / size, b / size, size);
  }

  lemma Ordered(m: nat, n: nat, size: nat)
    requires m * size < n * size
    ensures m < n && m * size + size <= n * size
  {
    if m >= n { Monotone(n, m, size); }
    Monotone(m + 1, n, size);
  }

  lemma Monotone(m: nat, n: nat, size: nat)
    requires m <= n
    ensures m * size <= n * size
  {
    assert (n - m) * size >= 0;
  }

  /** The sub-array that a brace initializes lies in the array, and in the row in which the brace stands. */
  lemma {:induction false} SubFits(dims: seq<nat>, start: nat, p: nat)
    requires Positive(dims) && dims != [] && Size(dims) > 0 && OnBoundary(start, Size(dims))
    requires start <= p < start + Size(dims)
    ensures var sub, size := SubAt(dims, p), Size(dims[1..]);
            && Size(sub) > 0 && OnBoundary(p, Size(sub)) && p + Size(sub) <= start + Size(dims)
            && size > 0 && (!OnBoundary(p, size) ==> p + Size(sub) <= p + Gap(p, size))
  {
    hide Size, OnBoundary, Gap;
    var rest, end := dims[1..], start + Size(dims);
    assert dims[0..] == dims;
    NextBoundary(start, Size(dims));
    OuterBoundary(dims, 0, 1, end);
    NextMultiple(p, Size(rest), end);
    if !OnBoundary(p, Size(rest)) {
      var base := RowBegun(p, Size(rest));
      NotUnit(rest, p);
      SubFits(rest, base, p);
    }
  }

  lemma RowBegun(p: nat, size: nat) returns (base: nat)
    requires size > 0 && !OnBoundary(p, size)
    ensures OnBoundary(base, size) && base < p < base + size && base + size == p + Gap(p, size)
  {
    base := p - p % size;
    ModIs(base, p / size, size, 0);
  }

  lemma NotUnit(rest: seq<nat>, p: nat)
    requires Size(rest) > 0 && !OnBoundary(p, Size(rest))
    ensures rest != []
  {
    if rest == [] { ModIs(p, p, 1, 0); }
  }

  ghost predicate AllIn(places: seq<nat>, lo: nat, hi: nat) {
    forall i :: 0 <= i < |places| ==> lo <= places[i] < hi
  }

  lemma NoneIn(p: nat, hi: nat)
    ensures AllIn([p], p, p + 1) && AllIn([], p, hi)
  {
  }

  lemma AllInBoth(a: seq<nat>, b: seq<nat>, lo: nat, mid: nat, hi: nat)
    requires lo <= mid <= hi && AllIn(a, lo, mid) && AllIn(b, mid, hi)
    ensures AllIn(a + b, lo, hi)
  {
  }

  lemma WalkEnd(items: seq<Init>, dims: seq<nat>, p: nat, end: nat)
    requires Positive(dims) && dims != []
    ensures Walk(items, |items|, dims, p, end) == Some([]) && ElementsFrom(items, |items|) == []
  {
  }

  lemma WalkElement(items: seq<Init>, k: nat, dims: seq<nat>, p: nat, end: nat)
    requires k < |items| && items[k].Exp? && Positive(dims) && dims != [] && Walk(items, k, dims, p, end).Some?
    ensures p < end && Walk(items, k + 1, dims, p + 1, end).Some?
    ensures Walk(items, k, dims, p, end).value == [p] + Walk(items, k + 1, dims, p + 1, end).value
    ensures ElementsFrom(items, k) == [items[k].val] + ElementsFrom(items, k + 1)
  {
  }

  lemma WalkBraces(items: seq<Init>, k: nat, dims: seq<nat>, p: nat, end: nat)
    requires k < |items| && items[k].Braces? && Positive(dims) && dims != [] && Walk(items, k, dims, p, end).Some?
    ensures var sub := SubAt(dims, p);
            && p < end && Positive(sub)
            && BracedPlaces(items[k].items, sub, p).Some? && Walk(items, k + 1, dims, p + Size(sub), end).Some?
            && Walk(items, k, dims, p, end).value
               == BracedPlaces(items[k].items, sub, p).value + Walk(items, k + 1, dims, p + Size(sub), end).value
    ensures ElementsFrom(items, k) == ElementsFrom(items[k].items, 0) + ElementsFrom(items, k + 1)
  {
    hide Size, BracedPlaces, OnBoundary;
  }

  /** C gives each element one place, inside the array. */
  lemma {:induction false} WalkInside(items: seq<Init>, k: nat, dims: seq<nat>, start: nat, p: nat)
    requires Positive(dims) && dims != [] && Size(dims) > 0 && OnBoundary(start, Size(dims)) && start <= p
    requires k <= |items| && Walk(items, k, dims, p, start + Size(dims)).Some?
    ensures var w := Walk(items, k, dims, p, start + Size(dims)).value;
            |w| == |ElementsFrom(items, k)| && AllIn(w, p, start + Size(dims))
    decreases items, |items| - k
  {
    hide Size, OnBoundary, SubAt, BracedPlaces, Positive, Walk, ElementsFrom, AllIn;
    var end := start + Size(dims);
    NoneIn(p, end);
    if k == |items| {
      WalkEnd(items, dims, p, end);
    } else {
      match items[k]
      case Exp(_) =>
        WalkElement(items, k, dims, p, end);
        WalkInside(items, k + 1, dims, start, p + 1);
        AllInBoth([p], Walk(items, k + 1, dims, p + 1, end).value, p, p + 1, end);
      case Braces(inner) =>
        WalkBraces(items, k, dims, p, end);
        SubFits(dims, start, p);
        var sub := SubAt(dims, p);
        var q := p + Size(sub);
        BracedInside(inner, sub, p);
        WalkInside(items, k + 1, dims, start, q);
        AllInBoth(BracedPlaces(inner, sub, p).value, Walk(items, k + 1, dims, q, end).value, p, q, end);
    }
  }

  lemma {:induction false} BracedInside(items: seq<Init>, dims: seq<nat>, p: nat)
    requires Positive(dims) && Size(dims) > 0 && OnBoundary(p, Size(dims)) && BracedPlaces(items, dims, p).Some?
    ensures var w := BracedPlaces(items, dims, p).value;
            |w| == |ElementsFrom(items, 0)| && AllIn(w, p, p + Size(dims))
    decreases items, |items| + 1
  {
    hide Size, OnBoundary, BracedPlaces, Walk, ElementsFrom, AllIn;
    if dims == [] {
      OneInside(items, p);
    } else {
      BracedIsWalk(items, dims, p);
      WalkInside(items, 0, dims, p, p);
    }
  }

  lemma OneInside(items: seq<Init>, p: nat)
    requires BracedPlaces(items, [], p).Some?
    ensures var w := BracedPlaces(items, [], p).value; |w| == |ElementsFrom(items, 0)| && AllIn(w, p, p + Size([]))
  {
  }

  ghost predicate AllFrom(places: seq<nat>, lo: nat) {
    forall i :: 0 <= i < |places| ==> lo <= places[i]
  }

  lemma AllFromBoth(a: seq<nat>, b: seq<nat>, lo: nat, mid: nat, more: nat)
    requires lo <= mid && lo <= more && AllFrom(a, mid) && AllFrom(b, more)
    ensures AllFrom(a + b, lo)
  {
  }

  lemma NoneFrom(p: nat)
    ensures AllFrom([], p) && AllFrom([p], p)
  {
  }

  /** The builder never goes back. */
  lemma {:induction false} PlacesAbove(items: seq<Init>, k: nat, rest: seq<nat>, p: nat)
    requires k <= |items| && Positive(rest)
    ensures AllFrom(PlacesFrom(items, k, rest, p), p)
    decreases items, |items| - k
  {
    hide Size, Gap, Positive, Tail, AllFrom, PlacesFrom, ElementsFrom;
    NoneFrom(p);
    if k == |items| {
      NoPlaces(items, rest, p);
    } else {
      if items[k].Exp? {
        PlacesElement(items, k, rest, p);
        PlacesAbove(items, k + 1, rest, p + 1);
        AllFromBoth([p], PlacesFrom(items, k + 1, rest, p + 1), p, p, p + 1);
      } else {
        PlacesBraces(items, k, rest, p);
        var q, inner := p + Gap(p, Size(rest)), items[k].items;
        var q1 := After(inner, rest, q);
        PlacesAbove(inner, 0, Tail(rest), q);
        PlacesAbove(items, k + 1, rest, q1);
        AllFromBoth(PlacesFrom(inner, 0, Tail(rest), q), PlacesFrom(items, k + 1, rest, q1), p, q, q1);
      }
    }
  }

  // ----- When the builder does what C does -----

  /** The builder's paddings do no harm from item k on: every nested brace is met with no row begun at its
      depth, where there is nothing to pad, and is filled up to its size and no further. Exempt from the
      first are braces that neither hold an element nor have one behind them in the same braces, and from
      the second those that have none behind them in the same braces. */
  predicate RowsMet(items: seq<Init>, k: nat, rest: seq<nat>, p: nat)
    requires k <= |items| && Positive(rest)
    decreases items, |items| - k
  {
    if k == |items| then true
    else
      match items[k]
      case Exp(_) => RowsMet(items, k + 1, rest, p + 1)
      case Braces(inner) =>
        SizePositive(rest);
        if !OnBoundary(p, Size(rest)) then ElementsFrom(items, k) == []
        else
          && RowsMet(inner, 0, Tail(rest), p)
          && if EndFrom(inner, 0, Tail(rest), p) <= p + Size(rest) then RowsMet(items, k + 1, rest, p + Size(rest))
             else ElementsFrom(items, k + 1) == []
  }

  /** The builder at q will begin its next row at least one row behind the one that C begins next, or has
      begun, at p. */
  ghost predicate RowAhead(rest: seq<nat>, p: nat, q: nat) {
    Size(rest) > 0 && p < q && p + Gap(p, Size(rest)) + Size(rest) <= q + Gap(q, Size(rest))
  }

  ghost predicate InArray(dims: seq<nat>, start: nat, p: nat) {
    Positive(dims) && dims != [] && Size(dims) > 0 && OnBoundary(start, Size(dims)) && start <= p
  }

  /** The first place comes earlier. */
  ghost predicate Later(a: seq<nat>, b: seq<nat>) {
    a != [] && b != [] && a[0] < b[0]
  }

  /** Once the builder is a row ahead, the next element comes behind the place that C gives it. */
  lemma {:induction false} Ahead(items: seq<Init>, k: nat, dims: seq<nat>, start: nat, p: nat, q: nat)
    requires InArray(dims, start, p) && k <= |items| && ElementsFrom(items, k) != []
    requires Walk(items, k, dims, p, start + Size(dims)).Some? && RowAhead(dims[1..], p, q)
    ensures Later(Walk(items, k, dims, p, start + Size(dims)).value, PlacesFrom(items, k, dims[1..], q))
    decreases |items| - k
  {
    hide Size, OnBoundary, SubAt, BracedPlaces, Walk, ElementsFrom, Gap, PlacesFrom, Tail, RowAhead, Later;
    var end, rest := start + Size(dims), dims[1..];
    if k == |items| {
      WalkEnd(items, dims, p, end);
    } else if items[k].Exp? {
      WalkElement(items, k, dims, p, end);
      PlacesElement(items, k, rest, q);
      ElementAhead(rest, p, q, Walk(items, k + 1, dims, p + 1, end).value, PlacesFrom(items, k + 1, rest, q + 1));
    } else {
      var sub, inner := SubAt(dims, p), items[k].items;
      WalkBraces(items, k, dims, p, end);
      PlacesBraces(items, k, rest, q);
      var b := q + Gap(q, Size(rest));
      var p1, q1 := p + Size(sub), After(inner, rest, b);
      SubFits(dims, start, p);
      StillAhead(dims, start, p, q, q1);
      BracedInside(inner, sub, p);
      PlacesAbove(inner, 0, Tail(rest), b);
      if ElementsFrom(inner, 0) == [] {
        Ahead(items, k + 1, dims, start, p1, q1);
        BehindNothing(BracedPlaces(inner, sub, p).value, Walk(items, k + 1, dims, p1, end).value,
                      PlacesFrom(inner, 0, Tail(rest), b), PlacesFrom(items, k + 1, rest, q1));
      } else {
        FirstLater(BracedPlaces(inner, sub, p).value, Walk(items, k + 1, dims, p1, end).value,
                   PlacesFrom(inner, 0, Tail(rest), b), PlacesFrom(items, k + 1, rest, q1), p, p1, b);
      }
    }
  }

  lemma ElementAhead(rest: seq<nat>, p: nat, q: nat, a: seq<nat>, b: seq<nat>)
    requires RowAhead(rest, p, q)
    ensures Later([p] + a, [q] + b)
  {
  }

  lemma BehindNothing(a: seq<nat>, b: seq<nat>, c: seq<nat>, d: seq<nat>)
    requires a == [] && c == [] && Later(b, d)
    ensures Later(a + b, c + d)
  {
  }

  lemma FirstLater(a: seq<nat>, b: seq<nat>, c: seq<nat>, d: seq<nat>, p: nat, p1: nat, q: nat)
    requires a != [] && |a| == |c| && AllIn(a, p, p1) && AllFrom(c, q) && p1 <= q
    ensures Later(a + b, c + d)
  {
  }

  /** A brace without elements leaves the builder at least a row ahead. */
  lemma StillAhead(dims: seq<nat>, start: nat, p: nat, q: nat, q1: nat)
    requires InArray(dims, start, p) && p < start + Size(dims) && RowAhead(dims[1..], p, q)
    requires q + Gap(q, Size(dims[1..])) + Size(dims[1..]) <= q1
    ensures p + Size(SubAt(dims, p)) <= q + Gap(q, Size(dims[1..]))
    ensures RowAhead(dims[1..], p + Size(SubAt(dims, p)), q1)
  {
    hide Size, OnBoundary, Gap, Positive, SubAt;
    var size := Size(dims[1..]);
    SubFits(dims, start, p);
    AfterSub(dims, p, size);
  }

  /** A brace that is filled beyond its size puts the builder a row ahead. */
  lemma OverAhead(rest: seq<nat>, p: nat, q: nat)
    requires Size(rest) > 0 && OnBoundary(p, Size(rest)) && p < q
    ensures RowAhead(rest, p, q)
  {
    hide Size, OnBoundary, Gap;
    var size := Size(rest);
    NoGap(p, size);
    NextMultiple(q, size, p);
    BoundaryStep(p, q + Gap(q, size), size);
  }

  lemma AfterSub(dims: seq<nat>, p: nat, size: nat)
    requires Positive(dims) && dims != [] && size == Size(dims[1..]) > 0
    requires !OnBoundary(p, size) ==> p + Size(SubAt(dims, p)) <= p + Gap(p, size)
    ensures var p1 := p + Size(SubAt(dims, p));
            p1 + Gap(p1, size) <= p + Gap(p, size) + size
  {
    hide Size, OnBoundary, Gap, Positive;
    var p1 := p + Size(SubAt(dims, p));
    if OnBoundary(p, size) {
      NextBoundary(p, size);
      NoGap(p1, size);
    } else {
      var base := RowBegun(p, size);
      NextBoundary(base, size);
      NextMultiple(p1, size, p + Gap(p, size));
    }
  }

  lemma MetEnd(items: seq<Init>, rest: seq<nat>, p: nat)
    requires Positive(rest)
    ensures RowsMet(items, |items|, rest, p)
  {
  }

  lemma MetElement(items: seq<Init>, k: nat, rest: seq<nat>, p: nat)
    requires k < |items| && items[k].Exp? && Positive(rest)
    ensures RowsMet(items, k, rest, p) <==> RowsMet(items, k + 1, rest, p + 1)
  {
  }

  lemma MetBraces(items: seq<Init>, k: nat, rest: seq<nat>, p: nat)
    requires k < |items| && items[k].Braces? && Positive(rest)
    ensures Size(rest) > 0 && Positive(Tail(rest))
    ensures RowsMet(items, k, rest, p) <==>
            if !OnBoundary(p, Size(rest)) then ElementsFrom(items, k) == []
            else
              && RowsMet(items[k].items, 0, Tail(rest), p)
              && if EndFrom(items[k].items, 0, Tail(rest), p) <= p + Size(rest) then
                   RowsMet(items, k + 1, rest, p + Size(rest))
                 else ElementsFrom(items, k + 1) == []
  {
    hide Size, OnBoundary, ElementsFrom, EndFrom;
    SizePositive(rest);
  }

  lemma SubHere(dims: seq<nat>, p: nat)
    requires Positive(dims) && dims != [] && Size(dims[1..]) > 0 && OnBoundary(p, Size(dims[1..]))
    ensures SubAt(dims, p) == dims[1..]
  {
    hide Size, OnBoundary;
  }

  lemma SameBoth(a: seq<nat>, b: seq<nat>, c: seq<nat>, d: seq<nat>)
    requires |a| == |c|
    ensures a + b == c + d <==> a == c && b == d
  {
    if a + b == c + d {
      assert a == (a + b)[..|a|] == (c + d)[..|a|] == c;
      assert b == (a + b)[|a|..] == (c + d)[|a|..] == d;
    }
  }

  /** A brace met with a row begun: what follows gets later places than C gives. */
  lemma Misplaced(items: seq<Init>, k: nat, dims: seq<nat>, start: nat, p: nat)
    requires InArray(dims, start, p) && k < |items| && items[k].Braces? && ElementsFrom(items, k) != []
    requires Walk(items, k, dims, p, start + Size(dims)).Some?
    requires Size(dims[1..]) > 0 && !OnBoundary(p, Size(dims[1..]))
    ensures Later(Walk(items, k, dims, p, start + Size(dims)).value, PlacesFrom(items, k, dims[1..], p))
  {
    hide Size, OnBoundary, SubAt, BracedPlaces, Walk, ElementsFrom, Gap, PlacesFrom, Tail, RowAhead, Later;
    var end, rest, inner := start + Size(dims), dims[1..], items[k].items;
    var sub, q := SubAt(dims, p), p + Gap(p, Size(rest));
    WalkBraces(items, k, dims, p, end);
    PlacesBraces(items, k, rest, p);
    var p1, q1 := p + Size(sub), After(inner, rest, q);
    SubFits(dims, start, p);
    NowAhead(dims, p, q1);
    BracedInside(inner, sub, p);
    PlacesAbove(inner, 0, Tail(rest), q);
    if ElementsFrom(inner, 0) == [] {
      Ahead(items, k + 1, dims, start, p1, q1);
      BehindNothing(BracedPlaces(inner, sub, p).value, Walk(items, k + 1, dims, p1, end).value,
                    PlacesFrom(inner, 0, Tail(rest), q), PlacesFrom(items, k + 1, rest, q1));
    } else {
      FirstLater(BracedPlaces(inner, sub, p).value, Walk(items, k + 1, dims, p1, end).value,
                 PlacesFrom(inner, 0, Tail(rest), q), PlacesFrom(items, k + 1, rest, q1), p, p1, q);
    }
  }

  lemma NowAhead(dims: seq<nat>, p: nat, q: nat)
    requires Positive(dims) && dims != [] && Size(dims[1..]) > 0 && !OnBoundary(p, Size(dims[1..]))
    requires p + Size(SubAt(dims, p)) <= p + Gap(p, Size(dims[1..]))
    requires p + Gap(p, Size(dims[1..])) + Size(dims[1..]) <= q
    ensures RowAhead(dims[1..], p + Size(SubAt(dims, p)), q)
  {
    hide Size, OnBoundary, Gap, Positive, SubAt;
    var size := Size(dims[1..]);
    var base := RowBegun(p, size);
    NextBoundary(base, size);
    NextMultiple(p + Size(SubAt(dims, p)), size, base + size);
  }

  lemma {:induction false} WalkAgrees(items: seq<Init>, k: nat, dims: seq<nat>, start: nat, p: nat)
    requires InArray(dims, start, p) && k <= |items| && Walk(items, k, dims, p, start + Size(dims)).Some?
    ensures PlacesFrom(items, k, dims[1..], p) == Walk(items, k, dims, p, start + Size(dims)).value
            <==> RowsMet(items, k, dims[1..], p)
    decreases items, |items| - k
  {
    hide Size, OnBoundary, SubAt, BracedPlaces, Walk, ElementsFrom, Gap, PlacesFrom, Tail, Later, RowsMet;
    var end, rest := start + Size(dims), dims[1..];
    if k == |items| {
      WalkEnd(items, dims, p, end);
      NoPlaces(items, rest, p);
      MetEnd(items, rest, p);
    } else if items[k].Exp? {
      WalkElement(items, k, dims, p, end);
      PlacesElement(items, k, rest, p);
      MetElement(items, k, rest, p);
      WalkAgrees(items, k + 1, dims, start, p + 1);
      SameBoth([p], PlacesFrom(items, k + 1, rest, p + 1), [p], Walk(items, k + 1, dims, p + 1, end).value);
    } else {
      WalkBraces(items, k, dims, p, end);
      MetBraces(items, k, rest, p);
      if OnBoundary(p, Size(rest)) {
        BracesAgree(items, k, dims, start, p);
      } else if ElementsFrom(items, k) == [] {
        WalkInside(items, k, dims, start, p);
      } else {
        Misplaced(items, k, dims, start, p);
        LaterDiffers(Walk(items, k, dims, p, end).value, PlacesFrom(items, k, rest, p));
      }
    }
  }

  lemma LaterDiffers(a: seq<nat>, b: seq<nat>)
    requires Later(a, b)
    ensures a != b
  {
  }

  lemma {:induction false} BracesAgree(items: seq<Init>, k: nat, dims: seq<nat>, start: nat, p: nat)
    requires InArray(dims, start, p) && k < |items| && items[k].Braces?
    requires Walk(items, k, dims, p, start + Size(dims)).Some?
    requires Size(dims[1..]) > 0 && OnBoundary(p, Size(dims[1..]))
    ensures PlacesFrom(items, k, dims[1..], p) == Walk(items, k, dims, p, start + Size(dims)).value
            <==> RowsMet(items, k, dims[1..], p)
    decreases items, |items| - k, 0
  {
    hide Size, OnBoundary, SubAt, BracedPlaces, Walk, ElementsFrom, Gap, PlacesFrom, Tail, RowsMet, EndFrom, Later,
         RowAhead, AllIn;
    var end, rest, inner := start + Size(dims), dims[1..], items[k].items;
    WalkBraces(items, k, dims, p, end);
    PlacesBraces(items, k, rest, p);
    MetBraces(items, k, rest, p);
    SubHere(dims, p);
    NoGap(p, Size(rest));
    var p1, q1 := p + Size(rest), After(inner, rest, p);
    BracedInside(inner, rest, p);
    BracedAgrees(inner, rest, p);
    if q1 == p1 {
      WalkAgrees(items, k + 1, dims, start, p1);
    } else {
      NextBoundary(p, Size(rest));
      WalkInside(items, k + 1, dims, start, p1);
      if ElementsFrom(items, k + 1) != [] {
        OverAhead(rest, p1, q1);
        Ahead(items, k + 1, dims, start, p1, q1);
        LaterDiffers(Walk(items, k + 1, dims, p1, end).value, PlacesFrom(items, k + 1, rest, q1));
      }
    }
    SameBoth(PlacesFrom(inner, 0, Tail(rest), p), PlacesFrom(items, k + 1, rest, q1),
             BracedPlaces(inner, rest, p).value, Walk(items, k + 1, dims, p1, end).value);
  }

  lemma {:induction false} BracedAgrees(items: seq<Init>, dims: seq<nat>, p: nat)
    requires Positive(dims) && Size(dims) > 0 && OnBoundary(p, Size(dims)) && BracedPlaces(items, dims, p).Some?
    ensures Positive(Tail(dims))
    ensures PlacesFrom(items, 0, Tail(dims), p) == BracedPlaces(items, dims, p).value
            <==> RowsMet(items, 0, Tail(dims), p)
    decreases items, |items| + 1
  {
    hide Size, OnBoundary, BracedPlaces, Walk, ElementsFrom, PlacesFrom, RowsMet;
    if dims == [] {
      OneAgrees(items, p);
    } else {
      BracedIsWalk(items, dims, p);
      WalkAgrees(items, 0, dims, p, p);
    }
  }

  lemma OneAgrees(items: seq<Init>, p: nat)
    requires BracedPlaces(items, [], p).Some?
    ensures PlacesFrom(items, 0, [], p) == BracedPlaces(items, [], p).value && RowsMet(items, 0, [], p)
  {
  }

  /** For every initializer that C accepts: the builder gives each element the place that C gives it if
      and only if its paddings do no harm. */
  lemma PlacesAgreeIff(items: seq<Init>, dims: seq<nat>)
    requires Positive(dims) && BracedPlaces(items, dims, 0).Some?
    ensures Positive(Tail(dims))
    ensures Places(items, dims, 0) == BracedPlaces(items, dims, 0).value <==> RowsMet(items, 0, Tail(dims), 0)
  {
    hide Size, BracedPlaces, PlacesFrom, RowsMet;
    SizePositive(dims);
    BracedAgrees(items, dims, 0);
  }

  // ----- What fits -----

  /** Every nested brace from item k on is met with no row begun at its depth. */
  predicate AllMet(items: seq<Init>, k: nat, rest: seq<nat>, p: nat)
    requires k <= |items| && Positive(rest)
    decreases items, |items| - k
  {
    if k == |items| then true
    else
      match items[k]
      case Exp(_) => AllMet(items, k + 1, rest, p + 1)
      case Braces(inner) =>
        SizePositive(rest);
        OnBoundary(p, Size(rest)) && AllMet(inner, 0, Tail(rest), p) && AllMet(items, k + 1, rest, p + Size(rest))
  }

  lemma {:induction false} AllMetFits(items: seq<Init>, k: nat, dims: seq<nat>, start: nat, p: nat)
    requires InArray(dims, start, p) && k <= |items| && p <= start + Size(dims)
    requires AllMet(items, k, dims[1..], p) && Walk(items, k, dims, p, start + Size(dims)).Some?
    ensures RowsMet(items, k, dims[1..], p) && EndFrom(items, k, dims[1..], p) <= start + Size(dims)
    decreases items, |items| - k
  {
    hide Size, OnBoundary, SubAt, BracedPlaces, Walk, ElementsFrom, Gap, Tail, RowsMet, EndFrom, AllMet, After;
    var end, rest := start + Size(dims), dims[1..];
    if k == |items| {
      MetEnd(items, rest, p);
      NoEnd(items, rest, p);
    } else {
      AllMetNext(items, k, rest, p);
      if items[k].Exp? {
        WalkElement(items, k, dims, p, end);
        MetElement(items, k, rest, p);
        EndElement(items, k, rest, p);
        AllMetFits(items, k + 1, dims, start, p + 1);
      } else {
        var inner := items[k].items;
        WalkBraces(items, k, dims, p, end);
        SubHere(dims, p);
        SubFits(dims, start, p);
        BracedMetFits(inner, rest, p);
        AllMetFits(items, k + 1, dims, start, p + Size(rest));
        NoGap(p, Size(rest));
        NotOver(inner, rest, p);
        MetBraces(items, k, rest, p);
        EndBraces(items, k, rest, p);
      }
    }
  }

  lemma NotOver(items: seq<Init>, dims: seq<nat>, p: nat)
    requires Positive(dims) && Positive(Tail(dims)) && EndFrom(items, 0, Tail(dims), p) <= p + Size(dims)
    ensures After(items, dims, p) == p + Size(dims)
  {
    hide Size, EndFrom, Tail;
  }

  lemma {:induction false} BracedMetFits(items: seq<Init>, dims: seq<nat>, p: nat)
    requires Positive(dims) && Positive(Tail(dims)) && Size(dims) > 0 && OnBoundary(p, Size(dims))
    requires AllMet(items, 0, Tail(dims), p) && BracedPlaces(items, dims, p).Some?
    ensures RowsMet(items, 0, Tail(dims), p) && EndFrom(items, 0, Tail(dims), p) <= p + Size(dims)
    decreases items, |items| + 1
  {
    hide Size, OnBoundary, BracedPlaces, Walk, RowsMet, EndFrom, AllMet;
    if dims == [] {
      OneMet(items, p);
    } else {
      BracedIsWalk(items, dims, p);
      AllMetFits(items, 0, dims, p, p);
    }
  }

  lemma OneMet(items: seq<Init>, p: nat)
    requires BracedPlaces(items, [], p).Some?
    ensures RowsMet(items, 0, [], p) && EndFrom(items, 0, [], p) <= p + Size([])
  {
  }

  /** r rows of n are full, the next one has `part` elements, and that is position p. */
  ghost predicate RowsFull(size: nat, n: nat, start: nat, p: nat, r: nat, part: nat) {
    part < size && p == start + r * size + part && p <= start + n * size
  }

  lemma RowsCount(size: nat, n: nat, start: nat, p: nat, r: nat, part: nat)
    requires RowsFull(size, n, start, p, r, part)
    ensures r <= n && (part > 0 ==> r < n) && (p < start + n * size <==> r < n)
  {
    if r > n { Monotone(n + 1, r, size); }
    if r < n { Monotone(r + 1, n, size); }
  }

  lemma ElementFills(size: nat, n: nat, start: nat, p: nat, r: nat, part: nat)
    requires RowsFull(size, n, start, p, r, part) && r < n
    ensures if part + 1 == size then RowsFull(size, n, start, p + 1, r + 1, 0)
            else RowsFull(size, n, start, p + 1, r, part + 1)
  {
    Monotone(r + 1, n, size);
  }

  lemma BraceFills(size: nat, n: nat, start: nat, p: nat, r: nat, part: nat)
    requires RowsFull(size, n, start, p, r, part) && r < n && OnBoundary(start, size) && OnBoundary(p, size)
    ensures part == 0 && RowsFull(size, n, start, p + size, r + 1, 0)
  {
    Monotone(r + 1, n, size);
    var m := start / size;
    assert p == (m + r) * size + part;
    ModIs(p, m + r, size, part);
  }

  /** The rows that these items make fit behind r others. */
  ghost predicate RowsFit(items: seq<Init>, rest: seq<nat>, partial: seq<Elem>, n: nat, r: nat)
    requires Positive(rest) && |partial| < Size(rest)
  {
    FillRows(items, rest, partial).Some? && r + |FillRows(items, rest, partial).value| <= n
  }

  lemma FitEnd(rest: seq<nat>, partial: seq<Elem>, n: nat, r: nat)
    requires Positive(rest) && |partial| < Size(rest)
    ensures RowsFit([], rest, partial, n, r) <==> if partial == [] then r <= n else r < n
  {
  }

  lemma FitElement(items: seq<Init>, k: nat, rest: seq<nat>, partial: seq<Elem>, n: nat, r: nat)
    requires Positive(rest) && |partial| < Size(rest) && k < |items| && items[k].Exp?
    ensures var more := partial + [items[k].val];
            RowsFit(items[k..], rest, partial, n, r) <==>
            if |more| == Size(rest) then RowsFit(items[k + 1..], rest, [], n, r + 1)
            else RowsFit(items[k + 1..], rest, more, n, r)
  {
    hide Size, Shape;
    assert items[k..][1..] == items[k + 1..];
  }

  lemma FitBraces(items: seq<Init>, k: nat, rest: seq<nat>, n: nat, r: nat)
    requires Positive(rest) && 0 < Size(rest) && k < |items| && items[k].Braces?
    ensures RowsFit(items[k..], rest, [], n, r) <==>
            Fill(items[k].items, rest).Some? && RowsFit(items[k + 1..], rest, [], n, r + 1)
  {
    hide Size, Shape, Fill;
    assert items[k..][1..] == items[k + 1..];
  }

  lemma FitNone(items: seq<Init>, rest: seq<nat>, partial: seq<Elem>, n: nat, r: nat)
    requires Positive(rest) && |partial| < Size(rest) && items != [] && r >= n
    ensures !RowsFit(items, rest, partial, n, r)
  {
    hide Size, FillRows;
    if FillRows(items, rest, partial).Some? { MoreRows(items, rest, partial); }
  }

  lemma {:induction false} MoreRows(items: seq<Init>, rest: seq<nat>, partial: seq<Elem>)
    requires Positive(rest) && |partial| < Size(rest) && FillRows(items, rest, partial).Some? && items != []
    ensures FillRows(items, rest, partial).value != []
    decreases |items|
  {
    hide Size, Fill, Shape;
    var k := 0;
    if items[0].Exp? && |partial| + 1 < Size(rest) {
      var more := partial + [items[0].val];
      if |items| > 1 { MoreRows(items[1..], rest, more); }
    }
  }

  lemma WalkOver(items: seq<Init>, k: nat, dims: seq<nat>, p: nat, end: nat)
    requires k < |items| && Positive(dims) && dims != []
    ensures p >= end ==> Walk(items, k, dims, p, end).None?
    ensures p < end && items[k].Exp? ==>
              (Walk(items, k, dims, p, end).Some? <==> Walk(items, k + 1, dims, p + 1, end).Some?)
    ensures p < end && items[k].Braces? ==>
              (Walk(items, k, dims, p, end).Some? <==>
               BracedPlaces(items[k].items, SubAt(dims, p), p).Some?
               && Walk(items, k + 1, dims, p + Size(SubAt(dims, p)), end).Some?)
  {
    hide SubAt, Size, BracedPlaces;
  }

  lemma AllMetNext(items: seq<Init>, k: nat, rest: seq<nat>, p: nat)
    requires k < |items| && Positive(rest) && AllMet(items, k, rest, p)
    ensures Size(rest) > 0 && Positive(Tail(rest))
    ensures if items[k].Exp? then AllMet(items, k + 1, rest, p + 1)
            else OnBoundary(p, Size(rest)) && AllMet(items[k].items, 0, Tail(rest), p)
                 && AllMet(items, k + 1, rest, p + Size(rest))
  {
    hide Size, OnBoundary;
    SizePositive(rest);
  }

  /** From item k on, C has room for what is left exactly if the rows of the builder do. */
  lemma {:induction false} FitsFrom(items: seq<Init>, k: nat, dims: seq<nat>, start: nat, p: nat, r: nat,
      partial: seq<Elem>)
    requires InArray(dims, start, p) && k <= |items| && AllMet(items, k, dims[1..], p)
    requires RowsFull(Size(dims[1..]), dims[0], start, p, r, |partial|)
    ensures Walk(items, k, dims, p, start + Size(dims)).Some?
            <==> RowsFit(items[k..], dims[1..], partial, dims[0], r)
    decreases items, |items| - k
  {
    hide Size, OnBoundary, SubAt, BracedPlaces, Walk, FillRows, AllMet, RowsFull, RowsFit;
    var end, rest, n := start + Size(dims), dims[1..], dims[0];
    FullFacts(dims, start, p, r, |partial|);
    if k == |items| {
      assert items[k..] == [];
      WalkEnd(items, dims, p, end);
      FitEnd(rest, partial, n, r);
    } else {
      WalkOver(items, k, dims, p, end);
      if p >= end {
        FitNone(items[k..], rest, partial, n, r);
      } else if items[k].Exp? {
        AllMetNext(items, k, rest, p);
        ElementFills(Size(rest), n, start, p, r, |partial|);
        FitElement(items, k, rest, partial, n, r);
        var more := partial + [items[k].val];
        if |more| == Size(rest) {
          FitsFrom(items, k + 1, dims, start, p + 1, r + 1, []);
        } else {
          FitsFrom(items, k + 1, dims, start, p + 1, r, more);
        }
      } else {
        AllMetNext(items, k, rest, p);
        BraceFills(Size(rest), n, start, p, r, |partial|);
        assert partial == [];
        FitBraces(items, k, rest, n, r);
        SubHere(dims, p);
        BracedFits(items[k].items, rest, p);
        FitsFrom(items, k + 1, dims, start, p + Size(rest), r + 1, []);
      }
    }
  }

  lemma FullFacts(dims: seq<nat>, start: nat, p: nat, r: nat, part: nat)
    requires InArray(dims, start, p) && RowsFull(Size(dims[1..]), dims[0], start, p, r, part)
    ensures Size(dims) == dims[0] * Size(dims[1..]) && OnBoundary(start, Size(dims[1..])) && part < Size(dims[1..])
    ensures r <= dims[0] && (part > 0 ==> r < dims[0]) && (p < start + Size(dims) <==> r < dims[0])
  {
    hide Size, OnBoundary;
    assert dims[0..] == dims;
    SizeSplits(dims, 0);
    RowsCount(Size(dims[1..]), dims[0], start, p, r, part);
    OuterBoundary(dims, 0, 1, start);
  }

  lemma {:induction false} BracedFits(items: seq<Init>, dims: seq<nat>, p: nat)
    requires Positive(dims) && Positive(Tail(dims)) && Size(dims) > 0 && OnBoundary(p, Size(dims))
    requires AllMet(items, 0, Tail(dims), p)
    ensures BracedPlaces(items, dims, p).Some? <==> Fill(items, dims).Some?
    decreases items, |items| + 1
  {
    hide Size, OnBoundary, Walk, AllMet, FillRows, RowsFull, BracedPlaces, Fill;
    if dims == [] {
      OneFits(items, p);
    } else {
      BracedIsWalk(items, dims, p);
      NoRowsYet(dims, p);
      FitsFrom(items, 0, dims, p, p, 0, []);
      FillFits(items, dims);
    }
  }

  lemma OneFits(items: seq<Init>, p: nat)
    ensures BracedPlaces(items, [], p).Some? <==> Fill(items, []).Some?
  {
  }

  lemma NoRowsYet(dims: seq<nat>, p: nat)
    requires Positive(dims) && dims != []
    ensures RowsFull(Size(dims[1..]), dims[0], p, p, 0, 0)
  {
    SizePositive(dims[1..]);
  }

  lemma FillFits(items: seq<Init>, dims: seq<nat>)
    requires Positive(dims) && dims != []
    ensures Size(dims[1..]) > 0 && (Fill(items, dims).Some? <==> RowsFit(items[0..], dims[1..], [], dims[0], 0))
  {
    hide FillRows, Size;
    SizePositive(dims[1..]);
    assert items[0..] == items;
  }

  /** Rows are either all in braces or all without. */
  predicate IsRegular(items: seq<Init>, rest: seq<nat>)
    decreases items
  {
    || (forall i :: 0 <= i < |items| ==> items[i].Exp?)
    || forall i :: 0 <= i < |items| ==> items[i].Braces? && IsRegular(items[i].items, Tail(rest))
  }

  lemma RowStarts(rest: seq<nat>, p: nat)
    requires Positive(rest) && Size(rest) > 0 && OnBoundary(p, Size(rest))
    ensures OnBoundary(p + Size(rest), Size(rest))
    ensures Positive(Tail(rest)) && Size(Tail(rest)) > 0 && OnBoundary(p, Size(Tail(rest)))
  {
    NextBoundary(p, Size(rest));
    SizePositive(Tail(rest));
    if rest != [] { InnerBoundary(p, rest[0], Size(Tail(rest))); }
  }

  /** Such initializers meet every brace with no row begun. */
  lemma {:induction false} RegularIsMet(items: seq<Init>, k: nat, rest: seq<nat>, p: nat)
    requires k <= |items| && Positive(rest) && Size(rest) > 0 && IsRegular(items, rest)
    requires OnBoundary(p, Size(rest)) || forall i :: 0 <= i < |items| ==> items[i].Exp?
    ensures AllMet(items, k, rest, p)
    decreases items, |items| - k
  {
    if k < |items| {
      SizePositive(rest);
      match items[k]
      case Exp(_) => RegularIsMet(items, k + 1, rest, p + 1);
      case Braces(inner) =>
        RowStarts(rest, p);
        assert IsRegular(inner, Tail(rest));
        RegularIsMet(inner, 0, Tail(rest), p);
        RegularIsMet(items, k + 1, rest, p + Size(rest));
    }
  }

  /** An initializer all of whose nested braces are met with no row begun is C's: the builder has room for it
      exactly if C has, and each element gets the same place. */
  lemma MetIsC(items: seq<Init>, dims: seq<nat>)
    requires Positive(dims) && Positive(Tail(dims)) && AllMet(items, 0, Tail(dims), 0)
    ensures BracedPlaces(items, dims, 0) == if Fill(items, dims).Some? then Some(Places(items, dims, 0)) else None
  {
    hide Size, BracedPlaces, PlacesFrom, RowsMet, AllMet, Fill;
    SizePositive(dims);
    BracedFits(items, dims, 0);
    if BracedPlaces(items, dims, 0).Some? {
      BracedMetFits(items, dims, 0);
      PlacesAgreeIff(items, dims);
    }
  }

  // ----- What the builder can visit -----

  /** The builder can visit whatever C accepts: braces are not nested deeper than the bounds go. */
  lemma {:induction false} TakenDepth(items: seq<Init>, k: nat, n: nat, rest: seq<nat>, p: nat, i: nat)
    requires k <= |items| && TakeRows(items, k, n, rest, p).Some? && k <= i < TakeRows(items, k, n, rest, p).value.next
    requires items[i].Braces?
    ensures DepthOk(items[i].items, |rest|)
    decreases items, |rest|, n
  {
    hide Size, DepthOk, BracedPlaces;
    if n > 0 && k < |items| {
      var row := TakeOne(items, k, rest, p);
      if i >= row.value.next {
        TakenDepth(items, row.value.next, n - 1, rest, p + Size(rest), i);
      } else if items[k].Braces? {
        BracedDepth(items[k].items, rest, p);
      } else if rest != [] {
        TakenDepth(items, k, rest[0], rest[1..], p, i);
        Deeper(items[i].items, |rest| - 1, |rest|);
      }
    }
  }

  lemma {:induction false} Deeper(items: seq<Init>, d: nat, e: nat)
    requires DepthOk(items, d) && d <= e
    ensures DepthOk(items, e)
  {
    forall i | 0 <= i < |items| && items[i].Braces?
      ensures e > 0 && DepthOk(items[i].items, e - 1)
    {
      Deeper(items[i].items, d - 1, e - 1);
    }
  }

  lemma {:induction false} BracedDepth(items: seq<Init>, dims: seq<nat>, p: nat)
    requires BracedPlaces(items, dims, p).Some?
    ensures DepthOk(items, |dims|)
    decreases items, |dims|, 0
  {
    hide Size, TakeRows, DepthOk;
    forall i | 0 <= i < |items| && items[i].Braces?
      ensures |dims| > 0 && DepthOk(items[i].items, |dims| - 1)
    {
      if dims != [] { TakenDepth(items, 0, dims[0], dims[1..], p, i); }
    }
    DepthIs(items, |dims|);
  }

  lemma DepthIs(items: seq<Init>, d: nat)
    requires forall i :: 0 <= i < |items| && items[i].Braces? ==> d > 0 && DepthOk(items[i].items, d - 1)
    ensures DepthOk(items, d)
  {
  }

  // ----- An initializer that the builder places differently -----

  const INNER := [Exp(Const(3)), Exp(Const(4))]
  const NESTED := [Exp(Const(1)), Exp(Const(2)), Braces(INNER)]

  lemma Sizes()
    ensures Size([2]) == 2 && Size([2, 2]) == 4 && Size([2, 2, 2]) == 8
    ensures [2, 2, 2][1..] == [2, 2] && [2, 2][1..] == [2] && [2][1..] == []
  {
    assert [2, 2, 2][1..] == [2, 2] && [2, 2][1..] == [2] && [2][1..] == [];
  }

  lemma NestedInC()
    ensures BracedPlaces(NESTED, [2, 2, 2], 0) == Some([0, 1, 2, 3])
  {
    Sizes();
    BracedIsWalk(NESTED, [2, 2, 2], 0);
    BracedIsWalk(INNER, [2], 2);
    assert !OnBoundary(2, 4) && OnBoundary(2, 2) && OnBoundary(0, 8);
    hide OnBoundary, Size, BracedPlaces;
    assert [2] + [3] == [2, 3] && [1] + [2, 3] == [1, 2, 3] && [0] + [1, 2, 3] == [0, 1, 2, 3];
    assert [3] + [] == [3] && [2, 3] + [] == [2, 3];
    assert Walk(INNER, 2, [2], 4, 4) == Some([]);
    assert Walk(INNER, 1, [2], 3, 4) == Before([3], Some([])) == Some([3]);
    assert Walk(INNER, 0, [2], 2, 4) == Before([2], Some([3])) == Some([2, 3]);
    assert SubAt([2, 2, 2], 2) == [2];
    assert Walk(NESTED, 3, [2, 2, 2], 4, 8) == Some([]);
    assert Walk(NESTED, 2, [2, 2, 2], 2, 8) == Before([2, 3], Some([])) == Some([2, 3]);
    assert Walk(NESTED, 1, [2, 2, 2], 1, 8) == Before([1], Some([2, 3])) == Some([1, 2, 3]);
    assert Walk(NESTED, 0, [2, 2, 2], 0, 8) == Before([0], Some([1, 2, 3])) == Some([0, 1, 2, 3]);
  }

  lemma NestedPlaced()
    ensures Places(NESTED, [2, 2, 2], 0) == [0, 1, 4, 5]
  {
    Sizes();
    assert Gap(2, 4) == 2;
    hide Gap, Size;
    PlacesElement(INNER, 0, [2], 4);
    PlacesElement(INNER, 1, [2], 5);
    NoPlaces(INNER, [2], 6);
    PlacesElement(NESTED, 0, [2, 2], 0);
    PlacesElement(NESTED, 1, [2, 2], 1);
    PlacesBraces(NESTED, 2, [2, 2], 2);
    NoPlaces(NESTED, [2, 2], 8);
  }

  lemma RowsElement(items: seq<Init>, k: nat, rest: seq<nat>, partial: seq<Elem>)
    requires k < |items| && items[k].Exp? && Positive(rest) && |partial| < Size(rest)
    ensures var p := partial + [items[k].val];
            FillRows(items[k..], rest, partial) ==
            if |p| < Size(rest) then FillRows(items[k + 1..], rest, p)
            else
              var r := FillRows(items[k + 1..], rest, []);
              if r.Some? then Some([Shape(p, rest)] + r.value) else None
  {
    hide Size, Shape;
    assert items[k..][1..] == items[k + 1..];
  }

  lemma RowsBraces(items: seq<Init>, k: nat, rest: seq<nat>, partial: seq<Elem>)
    requires k < |items| && items[k].Braces? && Positive(rest) && |partial| < Size(rest)
    ensures var sub, r := Fill(items[k].items, rest), FillRows(items[k + 1..], rest, []);
            FillRows(items[k..], rest, partial) ==
            if sub.Some? && r.Some? then Some(CloseRow(partial, rest) + [sub.value] + r.value) else None
  {
    hide Size, Shape, Fill;
    assert items[k..][1..] == items[k + 1..];
  }

  lemma RowsEnd(items: seq<Init>, rest: seq<nat>)
    requires Positive(rest) && 0 < Size(rest)
    ensures FillRows(items[|items|..], rest, []) == Some([])
  {
  }

  lemma FillIsRows(items: seq<Init>, dims: seq<nat>, rows: seq<Nest>)
    requires Positive(dims) && dims != [] && Size(dims[1..]) > 0
    requires FillRows(items[0..], dims[1..], []) == Some(rows) && |rows| <= dims[0]
    ensures Fill(items, dims) == Some(Rows(rows + ZeroRows(dims[0] - |rows|, dims[1..])))
  {
    hide FillRows, Size;
    assert items[0..] == items;
  }

  lemma InnerFilled()
    ensures Size([2]) == 2 && Fill(INNER, [2, 2]).Some?
    ensures var a := Fill(INNER, [2, 2]).value;
            a.Rows? && |a.rows| == 2 && a.rows[0] == Shape([Const(3), Const(4)], [2])
  {
    hide FillRows, Fill, Shape;
    Sizes();
    RowsElement(INNER, 0, [2], []);
    RowsElement(INNER, 1, [2], [Const(3)]);
    RowsEnd(INNER, [2]);
    var row := Shape([Const(3), Const(4)], [2]);
    assert [] + [Const(3)] == [Const(3)] && [Const(3)] + [Const(4)] == [Const(3), Const(4)] && [row] + [] == [row];
    FillIsRows(INNER, [2, 2], [row]);
  }

  lemma NestedFilled()
    ensures Fill(INNER, [2, 2]).Some? && Fill(NESTED, [2, 2, 2]).Some?
    ensures var a := Fill(NESTED, [2, 2, 2]).value;
            a.Rows? && |a.rows| == 2 && a.rows[1] == Fill(INNER, [2, 2]).value
  {
    hide FillRows, Fill, Shape;
    Sizes();
    InnerFilled();
    var partial := [Const(1), Const(2)];
    RowsElement(NESTED, 0, [2, 2], []);
    RowsElement(NESTED, 1, [2, 2], [Const(1)]);
    RowsBraces(NESTED, 2, [2, 2], partial);
    RowsEnd(NESTED, [2, 2]);
    var rows := CloseRow(partial, [2, 2]) + [Fill(INNER, [2, 2]).value];
    assert [] + [Const(1)] == [Const(1)] && [Const(1)] + [Const(2)] == partial && rows + [] == rows;
    FillIsRows(NESTED, [2, 2, 2], rows);
  }

  /** int a[2][2][2] = {1, 2, {3, 4}}: C puts 3 at [0][1][0], the builder at [1][0][0]. */
  lemma NestedMoved()
    ensures BracedPlaces(NESTED, [2, 2, 2], 0) == Some([0, 1, 2, 3]) && Places(NESTED, [2, 2, 2], 0) == [0, 1, 4, 5]
    ensures Offset([0, 1, 0], [2, 2, 2]) == 2 && Offset([1, 0, 0], [2, 2, 2]) == 4
    ensures Fill(NESTED, [2, 2, 2]).Some? && HasShape(Fill(NESTED, [2, 2, 2]).value, [2, 2, 2])
    ensures ElementAt(Fill(NESTED, [2, 2, 2]).value, [1, 0, 0], [2, 2, 2]) == Const(3)
  {
    hide Fill, BracedPlaces, Places;
    Sizes();
    NestedInC();
    NestedPlaced();
    InnerFilled();
    NestedFilled();
    FillShape(NESTED, [2, 2, 2]);
    ShapeFlattens([Const(3), Const(4)], [2]);
  }
}
