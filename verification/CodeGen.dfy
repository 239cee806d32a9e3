/** The finished parts of the back end: the frame of a function, 64-bit constants, the prologue. */
module CodeGen {
  import opened Arithmetic

  // ----- Alignment -----

  const WORD_32: nat := 0x1_0000_0000
  const WORD_64: nat := 0x1_0000_0000_0000_0000

  function Power(n: nat): (r: nat)
    ensures r > 0
  {
    if n == 0 then 1 else 2 * Power(n - 1)
  }

  /** Bitwise and. */
  function BitAnd(x: nat, y: nat): nat {
    if x == 0 || y == 0 then 0
    else 2 * BitAnd(x / 2, y / 2) + (if x % 2 == 1 && y % 2 == 1 then 1 else 0)
  }

  /** `ALIGN` on unsigned 32-bit words, wrap-around included: the complement of alignment - 1 is the mask. */
  function Align(x: nat, alignment: nat): nat {
    var low := (alignment + WORD_32 - 1) % WORD_32;
    BitAnd((x + low) % WORD_32, WORD_32 - 1 - low)
  }

  /** For a power of two it is the least multiple not below x, as long as nothing wraps around. */
  lemma AlignIsLeast(x: nat, k: nat, m: nat)
    requires x + Power(k) <= WORD_32
    ensures var a := Power(k); Align(x, a) % a == 0 && x <= Align(x, a) < x + a
    ensures m % Power(k) == 0 && x <= m ==> Align(x, Power(k)) <= m
  {
    var a := Power(k);
    hide *;
    AlignIsMultiple(x, k);
    if m % a == 0 && x <= m < Align(x, a) {
      Multiples(m, Align(x, a), a);
    }
  }

  lemma AlignIsMultiple(x: nat, k: nat)
    requires x + Power(k) <= WORD_32
    ensures var a := Power(k); Align(x, a) % a == 0 && x <= Align(x, a) < x + a
  {
    hide Power, Align;
    AlignIsRemainder(x, k);
    MultipleBelow(x + (Power(k) - 1), Power(k));
  }

  /** The mask takes off the remainder. */
  lemma AlignIsRemainder(x: nat, k: nat)
    requires x + Power(k) <= WORD_32
    ensures var y := x + (Power(k) - 1); Align(x, Power(k)) == y - y % Power(k)
  {
    hide Power, BitAnd, Align;
    PowerOfWord(k);
    AlignIsMask(x, Power(k));
    LowBitsOff(x + (Power(k) - 1), k, 32);
  }

  lemma AlignIsMask(x: nat, a: nat)
    requires 0 < a && x + a <= WORD_32
    ensures Align(x, a) == BitAnd(x + (a - 1), WORD_32 - a)
  {
    hide BitAnd;
    ModIs(a + WORD_32 - 1, 1, WORD_32, a - 1);
    SmallRemainder(x + (a - 1), WORD_32);
  }

  lemma PowerOfWord(k: nat)
    requires Power(k) <= WORD_32
    ensures k <= 32 && Power(32) == WORD_32
  {
    Powers();
    assert Power(33) == 2 * Power(32);
    if k > 32 { PowersRise(33, k); }
  }

  lemma {:induction false} PowersRise(j: nat, k: nat)
    requires j <= k
    ensures Power(j) <= Power(k)
  {
    if j < k { PowersRise(j, k - 1); }
  }

  lemma {:induction false} LowBitsOff(y: nat, k: nat, n: nat)
    requires k <= n && y < Power(n)
    ensures Power(k) <= Power(n) && BitAnd(y, Power(n) - Power(k)) == y - y % Power(k)
  {
    if k == 0 {
      AllBits(y, n);
    } else {
      LowBitsOff(y / 2, k - 1, n - 1);
      var p, q := Power(k - 1), Power(n - 1);
      assert Power(k) == 2 * p && Power(n) == 2 * q && Power(n) - Power(k) == 2 * (q - p);
      hide Power, BitAnd;
      HalfRemainder(y, p);
      MaskStep(y, q - p, y / 2 % p);
    }
  }

  lemma MaskStep(y: nat, d: nat, r: nat)
    requires BitAnd(y / 2, d) + r == y / 2
    ensures BitAnd(y, 2 * d) + (2 * r + y % 2) == y
  {
    EvenMask(y, d);
    hide BitAnd;
    assert y == 2 * (y / 2) + y % 2;
  }

  lemma EvenMask(y: nat, m: nat)
    ensures BitAnd(y, 2 * m) == 2 * BitAnd(y / 2, m)
  {
    if m > 0 { assert 2 * m / 2 == m && 2 * m % 2 == 0; }
  }

  lemma SmallRemainder(y: nat, p: nat)
    requires y < p
    ensures y % p == y
  {
    ModIs(y, 0, p, y);
  }

  lemma {:induction false} AllBits(y: nat, n: nat)
    requires y < Power(n)
    ensures BitAnd(y, Power(n) - 1) == y
  {
    if n > 0 {
      AllBits(y / 2, n - 1);
    }
  }

  lemma HalfRemainder(y: nat, p: nat)
    requires p > 0
    ensures y % (2 * p) == 2 * (y / 2 % p) + y % 2
  {
    var h := y / 2;
    ModIs(y, h / p, 2 * p, 2 * (h % p) + y % 2);
  }

  lemma MultipleBelow(y: nat, a: nat)
    requires a > 0
    ensures (y - y % a) % a == 0
  {
    var q := y / a;
    assert y - y % a == q * a;
    ModIs(q * a, q, a, 0);
  }

  lemma Multiples(m: nat, n: nat, a: nat)
    requires a > 0 && m % a == 0 && n % a == 0 && m < n
    ensures m + a <= n
  {
    var j, k := m / a, n / a;
    assert m == j * a && n == k * a && (k - j) * a == n - m;
    if k > j { MulAtLeast(k - j, a); }
    if j > k { MulAtLeast(j - k, a); }
  }

  // ----- The frame -----

  /** Sizes of the values there are: i1, i32 and float, pointers. */
  predicate ValueSize(n: nat) {
    n == 1 || n == 4 || n == 8
  }

  /** An argument or the result of an instruction (0 for a void one), and what an alloca adds. */
  datatype Slot = Slot(size: nat, payload: nat)

  ghost predicate SlotsOk(slots: seq<Slot>) {
    forall i :: 0 <= i < |slots| ==> slots[i].size == 0 || ValueSize(slots[i].size)
  }

  /** Bytes from `lo` up to `hi`, relative to the frame pointer. */
  datatype Region = Region(lo: int, hi: int)

  predicate Disjoint(a: Region, b: Region) {
    a.hi <= b.lo || b.hi <= a.lo || a.lo == a.hi || b.lo == b.hi
  }

  const SAVED: nat := 16     // PROLOGUE_OFFSET_BASE: $ra and $fp

  function AfterSlot(offset: nat, s: Slot): nat {
    (if s.size == 0 then offset else Align(offset + s.size, s.size)) + s.payload
  }

  /** The offset behind the first k slots. */
  function OffsetAfter(slots: seq<Slot>, k: nat): nat
    requires k <= |slots|
  {
    if k == 0 then SAVED else AfterSlot(OffsetAfter(slots, k - 1), slots[k - 1])
  }

  /** Everything fits in a positive 32-bit integer. */
  ghost predicate Fits(slots: seq<Slot>) {
    forall k :: 0 <= k <= |slots| ==> OffsetAfter(slots, k) + 16 < 0x8000_0000
  }

  function ValueRegion(slots: seq<Slot>, k: nat): Region
    requires k < |slots|
  {
    var before := OffsetAfter(slots, k);
    var o := if slots[k].size == 0 then before else Align(before + slots[k].size, slots[k].size);
    Region(0 - o, slots[k].size - o)
  }

  function PayloadRegion(slots: seq<Slot>, k: nat): Region
    requires k < |slots|
  {
    var o := OffsetAfter(slots, k + 1);
    Region(0 - o, slots[k].payload - o)
  }

  /** Both regions of slot k lie between the offsets before and after it. */
  lemma SlotBounds(slots: seq<Slot>, k: nat)
    requires SlotsOk(slots) && Fits(slots) && k < |slots|
    ensures var v, p := ValueRegion(slots, k), PayloadRegion(slots, k);
            && OffsetAfter(slots, k) <= OffsetAfter(slots, k + 1)
            && 0 - OffsetAfter(slots, k + 1) == p.lo <= p.hi == v.lo <= v.hi <= 0 - OffsetAfter(slots, k)
            && (slots[k].size > 0 ==> v.lo % slots[k].size == 0)
  {
    var before, s := OffsetAfter(slots, k), slots[k].size;
    assert OffsetAfter(slots, k) + 16 < 0x8000_0000;
    if s > 0 {
      AlignedTo(before + s, s);
      NegatedMultiple(Align(before + s, s), s);
    }
  }

  /** The sizes of values and the alignment of the frame are powers of two. */
  lemma AlignedTo(x: nat, s: nat)
    requires (ValueSize(s) || s == 16) && x + s <= WORD_32
    ensures Align(x, s) % s == 0 && x <= Align(x, s) < x + s
  {
    assert Power(0) == 1 && Power(2) == 4 && Power(3) == 8 && Power(4) == 16;
    AlignIsLeast(x, if s == 1 then 0 else if s == 4 then 2 else if s == 8 then 3 else 4, 0);
  }

  lemma NegatedMultiple(n: nat, s: nat)
    requires ValueSize(s) && n % s == 0
    ensures (0 - n) % s == 0
  {
  }

  lemma {:induction false} OffsetsRise(slots: seq<Slot>, j: nat, k: nat)
    requires SlotsOk(slots) && Fits(slots) && j <= k <= |slots|
    ensures SAVED <= OffsetAfter(slots, j) <= OffsetAfter(slots, k)
    decreases k
  {
    if j < k {
      SlotBounds(slots, k - 1);
      OffsetsRise(slots, j, k - 1);
    } else if k > 0 {
      SlotBounds(slots, k - 1);
      OffsetsRise(slots, k - 1, k - 1);
    }
  }

  function FrameSize(slots: seq<Slot>): nat {
    Align(OffsetAfter(slots, |slots|), 16)
  }

  /** Slots and payloads are pairwise disjoint, lie below the saved registers and inside the frame,
      slots are aligned to their size, and the frame is a multiple of 16. */
  lemma FrameLayout(slots: seq<Slot>, j: nat, k: nat)
    requires SlotsOk(slots) && Fits(slots) && j < k < |slots|
    ensures Disjoint(ValueRegion(slots, j), ValueRegion(slots, k))
    ensures Disjoint(ValueRegion(slots, j), PayloadRegion(slots, k))
    ensures Disjoint(PayloadRegion(slots, j), ValueRegion(slots, k))
    ensures Disjoint(PayloadRegion(slots, j), PayloadRegion(slots, k))
    ensures Disjoint(ValueRegion(slots, k), PayloadRegion(slots, k))
  {
    SlotBounds(slots, j);
    SlotBounds(slots, k);
    OffsetsRise(slots, j + 1, k);
  }

  lemma InsideFrame(slots: seq<Slot>, k: nat)
    requires SlotsOk(slots) && Fits(slots) && k < |slots|
    ensures 0 - FrameSize(slots) <= PayloadRegion(slots, k).lo <= PayloadRegion(slots, k).hi <= 0 - SAVED
    ensures 0 - FrameSize(slots) <= ValueRegion(slots, k).lo <= ValueRegion(slots, k).hi <= 0 - SAVED
    ensures slots[k].size > 0 ==> ValueRegion(slots, k).lo % slots[k].size == 0
  {
    SlotBounds(slots, k);
    OffsetsRise(slots, 0, k);
    OffsetsRise(slots, k + 1, |slots|);
    AlignedTo(OffsetAfter(slots, |slots|), 16);
  }

  /** Nothing is wasted: a value gets the highest aligned place below what comes before it, the first one below
      the two saved words, and the array of an alloca lies right below its value. */
  lemma PlaceIsHighest(slots: seq<Slot>, k: nat, o: int)
    requires SlotsOk(slots) && Fits(slots) && k < |slots|
    ensures var above := if k == 0 then -16 else PayloadRegion(slots, k - 1).lo;
            var v := ValueRegion(slots, k);
            && v.hi == v.lo + slots[k].size && v.hi <= above
            && (slots[k].size == 0 ==> v.lo == above)
            && (slots[k].size > 0 && o % slots[k].size == 0 && o + slots[k].size <= above ==> o <= v.lo)
    ensures var v, p := ValueRegion(slots, k), PayloadRegion(slots, k);
            p.hi == v.lo && p.lo == v.lo - slots[k].payload
  {
    var before, s := OffsetAfter(slots, k), slots[k].size;
    assert before + 16 < 0x8000_0000;
    if s > 0 {
      AlignedTo(before + s, s);
      if o % s == 0 && o + s + before <= 0 { HighestBelow(before, s, 0 - o - s); }
    }
    hide Align;
  }

  /** n is the distance of the end of another place. */
  lemma HighestBelow(before: nat, s: nat, n: nat)
    requires ValueSize(s) && before + s + s <= WORD_32 && (0 - n - s) % s == 0 && before <= n
    ensures Align(before + s, s) <= n + s
  {
    hide Align;
    AlignedTo(before + s, s);
    assert (n + s) % s == 0;
    if n + s < Align(before + s, s) { Multiples(n + s, Align(before + s, s), s); }
  }

  /** The frame is the least multiple of 16 with all that is allocated. */
  lemma FrameIsLeast(slots: seq<Slot>, n: nat)
    requires SlotsOk(slots) && Fits(slots)
    ensures FrameSize(slots) % 16 == 0 && OffsetAfter(slots, |slots|) <= FrameSize(slots)
    ensures n % 16 == 0 && OffsetAfter(slots, |slots|) <= n ==> FrameSize(slots) <= n
  {
    var x := OffsetAfter(slots, |slots|);
    assert x + 16 < 0x8000_0000;
    AlignedTo(x, 16);
    if n % 16 == 0 && x <= n < FrameSize(slots) { Multiples(n, FrameSize(slots), 16); }
  }

  /** `allocate`: offsets of all values, void results aside, and the size of the frame. */
  method Allocate(args: seq<nat>, instrs: seq<Slot>)
      returns (argOffsets: seq<int>, offsets: map<nat, int>, frameSize: nat)
    requires (forall i :: 0 <= i < |args| ==> ValueSize(args[i])) && SlotsOk(instrs) && Fits(AllSlots(args, instrs))
    ensures |argOffsets| == |args| && forall i :: 0 <= i < |args| ==>
            argOffsets[i] == ValueRegion(AllSlots(args, instrs), i).lo
    ensures ResultOffsets(args, instrs, |instrs|, offsets)
    ensures frameSize == FrameSize(AllSlots(args, instrs))
  {
    ghost var slots := AllSlots(args, instrs);
    OffsetNone(slots);
    hide Align, OffsetAfter, ValueRegion, Fits, SlotsOk, FrameSize, ResultOffsets;
    var offset: int := SAVED;
    argOffsets := [];
    for i := 0 to |args|
      invariant offset == OffsetAfter(slots, i) && |argOffsets| == i
      invariant forall j :: 0 <= j < i ==> argOffsets[j] == ValueRegion(slots, j).lo
    {
      OffsetStep(slots, i);
      SlotOfArg(args, instrs, i);
      offset := Align(offset + args[i], args[i]);
      argOffsets := argOffsets + [0 - offset];
    }
    offset, offsets := AllocateResults(args, instrs, offset);
    frameSize := Align(offset, 16);
    FrameSizeIs(slots);
  }

  /** Where the result of instruction i lives. */
  function ResultPlace(args: seq<nat>, instrs: seq<Slot>, i: nat): int
    requires i < |instrs|
  {
    ValueRegion(AllSlots(args, instrs), |args| + i).lo
  }

  /** The offsets of the first k instructions' results. */
  ghost predicate ResultOffsets(args: seq<nat>, instrs: seq<Slot>, k: nat, offsets: map<nat, int>)
    requires k <= |instrs|
  {
    && (forall i: nat :: i in offsets <==> i < k && instrs[i].size != 0)
    && forall i: nat :: i in offsets ==> offsets[i] == ResultPlace(args, instrs, i)
  }

  method AllocateResults(args: seq<nat>, instrs: seq<Slot>, offset0: nat) returns (offset: nat, offsets: map<nat, int>)
    requires SlotsOk(instrs) && offset0 == OffsetAfter(AllSlots(args, instrs), |args|)
    ensures offset == OffsetAfter(AllSlots(args, instrs), |args| + |instrs|)
    ensures ResultOffsets(args, instrs, |instrs|, offsets)
  {
    ghost var slots := AllSlots(args, instrs);
    hide Align, OffsetAfter, ValueRegion, ResultOffsets;
    NoResults(args, instrs);
    offset, offsets := offset0, map[];
    for i := 0 to |instrs|
      invariant offset == OffsetAfter(slots, |args| + i) && ResultOffsets(args, instrs, i, offsets)
    {
      ResultStep(args, instrs, i, offsets);
      var size := instrs[i].size;
      if size != 0 {
        offset := Align(offset + size, size);
        offsets := offsets[i := 0 - offset];
      }
      offset := offset + instrs[i].payload;
    }
  }

  lemma SlotOfArg(args: seq<nat>, instrs: seq<Slot>, i: nat)
    requires i < |args|
    ensures AllSlots(args, instrs)[i] == Slot(args[i], 0)
  {
  }

  lemma SlotOfInstr(args: seq<nat>, instrs: seq<Slot>, i: nat)
    requires i < |instrs|
    ensures AllSlots(args, instrs)[|args| + i] == instrs[i]
  {
  }

  lemma NoResults(args: seq<nat>, instrs: seq<Slot>)
    ensures ResultOffsets(args, instrs, 0, map[])
  {
  }

  lemma ResultStep(args: seq<nat>, instrs: seq<Slot>, i: nat, offsets: map<nat, int>)
    requires i < |instrs| && ResultOffsets(args, instrs, i, offsets)
    ensures var slots, size := AllSlots(args, instrs), instrs[i].size;
            var before := OffsetAfter(slots, |args| + i);
            if size == 0 then
              OffsetAfter(slots, |args| + i + 1) == before + instrs[i].payload
                && ResultOffsets(args, instrs, i + 1, offsets)
            else
              && OffsetAfter(slots, |args| + i + 1) == Align(before + size, size) + instrs[i].payload
              && ResultOffsets(args, instrs, i + 1, offsets[i := 0 - Align(before + size, size)])
  {
    PlaceStep(args, instrs, i);
    hide Align, OffsetAfter, ResultPlace, AllSlots;
  }

  lemma PlaceIs(args: seq<nat>, instrs: seq<Slot>, i: nat)
    requires i < |instrs|
    ensures ResultPlace(args, instrs, i) == ValueRegion(AllSlots(args, instrs), |args| + i).lo
  {
    hide ValueRegion, AllSlots;
  }

  lemma PlaceStep(args: seq<nat>, instrs: seq<Slot>, i: nat)
    requires i < |instrs|
    ensures var slots, size := AllSlots(args, instrs), instrs[i].size;
            var before := OffsetAfter(slots, |args| + i);
            if size == 0 then
              OffsetAfter(slots, |args| + i + 1) == before + instrs[i].payload
            else
              && OffsetAfter(slots, |args| + i + 1) == Align(before + size, size) + instrs[i].payload
              && ResultPlace(args, instrs, i) == 0 - Align(before + size, size)
  {
    hide *;
    OffsetStep(AllSlots(args, instrs), |args| + i);
    SlotOfInstr(args, instrs, i);
    PlaceIs(args, instrs, i);
  }

  lemma OffsetNone(slots: seq<Slot>)
    ensures OffsetAfter(slots, 0) == SAVED
  {
  }

  lemma FrameSizeIs(slots: seq<Slot>)
    ensures FrameSize(slots) == Align(OffsetAfter(slots, |slots|), 16)
  {
  }

  lemma OffsetStep(slots: seq<Slot>, k: nat)
    requires k < |slots|
    ensures var s, before := slots[k], OffsetAfter(slots, k);
            var start := if s.size == 0 then before else Align(before + s.size, s.size);
            OffsetAfter(slots, k + 1) == start + s.payload && ValueRegion(slots, k).lo == 0 - start
  {
  }

  function AllSlots(args: seq<nat>, instrs: seq<Slot>): (r: seq<Slot>)
    ensures |r| == |args| + |instrs|
  {
    seq(|args|, i requires 0 <= i < |args| => Slot(args[i], 0)) + instrs
  }

  // ----- Constants -----

  /** Instructions of the LoongArch reference manual, volume 1, section 2.2.1, on one register. */
  datatype Inst = Lu12iW(si20: int) | Ori(ui12: int) | Lu32iD(si20: int) | Lu52iD(si12: int)

  /** The value of a word whose bits are those of x, as a two's complement number. */
  function Signed(x: int, word: nat): int
    requires word > 0 && word % 2 == 0
  {
    var y := x % word; if y < word / 2 then y else y - word
  }

  /** A 64-bit register as a signed number. Ori is used only where the low 12 bits are zero. */
  function Exec(i: Inst, r: int): int {
    match i
    case Lu12iW(s) => Signed(s * 0x1000, WORD_32)
    case Ori(u) => r - r % 0x1000 + BitOr12(r % 0x1000, u)
    case Lu32iD(s) => Signed(s * WORD_32, WORD_64) + r % WORD_32
    case Lu52iD(s) => Signed(s * 0x10_0000_0000_0000, WORD_64) + r % 0x10_0000_0000_0000
  }

  /** Bitwise or of two 12-bit numbers. */
  function BitOr12(a: int, b: int): int {
    if 0 <= a < 0x1000 && 0 <= b < 0x1000 then ((a as bv12) | (b as bv12)) as int else a
  }

  lemma OrZero(b: int)
    requires 0 <= b < 0x1000
    ensures BitOr12(0, b) == b
  {
    assert (0 as bv12) | (b as bv12) == b as bv12;
  }

  function Execute(code: seq<Inst>, r: int): int {
    if code == [] then r else Execute(code[1..], Exec(code[0], r))
  }

  /** Arithmetic right shift. */
  function Shift(v: int, n: nat): int {
    v / Power(n)
  }

  lemma Powers()
    ensures Power(12) == 0x1000 && Power(20) == 0x10_0000 && Power(32) == WORD_32
  {
    assert Power(4) == 16 && Power(8) == 256 && Power(12) == 0x1000 && Power(16) == 0x1_0000;
    assert Power(20) == 0x10_0000 && Power(24) == 0x100_0000 && Power(28) == 0x1000_0000 && Power(32) == WORD_32;
  }

  method LoadLargeInt32(val: int) returns (code: seq<Inst>)
    requires -0x8000_0000 <= val < 0x8000_0000
    ensures forall r :: Execute(code, r) == val
    ensures |code| == 2 && code[0] == Lu12iW(val / 0x1000) && code[1] == Ori(val % 0x1000)
  {
    Powers();
    hide BitOr12;
    var high20 := Shift(val, 12);
    var low12 := val % 0x1000;
    hide Shift, Power, Exec;
    code := [Lu12iW(high20), Ori(low12)];
    forall r
      ensures Execute(code, r) == val
    {
      LowPart(val);
      HighPart(val / 0x1000, r);
      ExecuteTwo(Lu12iW(high20), Ori(low12), r);
    }
  }

  lemma ExecuteTwo(a: Inst, b: Inst, r: int)
    ensures Execute([a, b], r) == Exec(b, Exec(a, r))
  {
    assert [a, b][1..] == [b] && [b][1..] == [];
    assert Execute([b], Exec(a, r)) == Execute([], Exec(b, Exec(a, r)));
  }

  lemma HighPart(s: int, r: int)
    ensures Exec(Lu12iW(s), r) == Signed(s * 0x1000, WORD_32)
  {
  }

  lemma LowPart(val: int)
    requires -0x8000_0000 <= val < 0x8000_0000
    ensures Exec(Ori(val % 0x1000), Signed(val / 0x1000 * 0x1000, WORD_32)) == val
  {
    OrZero(val % 0x1000);
    hide BitOr12;
    var high := val / 0x1000 * 0x1000;
    assert Signed(high, WORD_32) == high && high % 0x1000 == 0;
  }

  /** The emitted sequence leaves exactly the given number in the register, whatever was there. */
  method LoadLargeInt64(val: int) returns (code: seq<Inst>)
    requires -0x8000_0000_0000_0000 <= val < 0x8000_0000_0000_0000
    ensures forall r :: Execute(code, r) == val
  {
    Powers();
    var low32 := Signed(val % WORD_32, WORD_32);
    var first := LoadLargeInt32(low32);
    var high32 := Shift(val, 32);
    var high32Low20 := Shift(Signed(high32 * 0x1000, WORD_32), 12);
    var high32High12 := Shift(high32, 20);
    code := first + [Lu32iD(high32Low20)] + [Lu52iD(high32High12)];
    forall r
      ensures Execute(code, r) == val
    {
      ExecuteConcat(first + [Lu32iD(high32Low20)], [Lu52iD(high32High12)], r);
      ExecuteConcat(first, [Lu32iD(high32Low20)], r);
      assert [Lu32iD(high32Low20)][1..] == [] && [Lu52iD(high32High12)][1..] == [];
      HighParts(val);
    }
  }

  lemma {:induction false} ExecuteConcat(a: seq<Inst>, b: seq<Inst>, r: int)
    ensures Execute(a + b, r) == Execute(b, Execute(a, r))
  {
    if a == [] {
      assert a + b == b;
    } else {
      assert (a + b)[1..] == a[1..] + b;
      ExecuteConcat(a[1..], b, Exec(a[0], r));
    }
  }

  lemma HighParts(val: int)
    requires -0x8000_0000_0000_0000 <= val < 0x8000_0000_0000_0000
    ensures var high32 := val / WORD_32;
            var low20 := Signed(high32 * 0x1000, WORD_32) / 0x1000;
            Exec(Lu52iD(high32 / 0x10_0000), Exec(Lu32iD(low20), Signed(val % WORD_32, WORD_32))) == val
  {
    var high32 := val / WORD_32;
    LowTwenty(high32);
    Joined(val, Signed(high32, 0x10_0000));
  }

  /** Shifting left and right again sign-extends the low 20 bits. */
  lemma LowTwenty(high32: int)
    ensures Signed(high32 * 0x1000, WORD_32) / 0x1000 == Signed(high32, 0x10_0000)
  {
  }

  lemma Joined(val: int, low20: int)
    requires -0x8000_0000_0000_0000 <= val < 0x8000_0000_0000_0000 && low20 == Signed(val / WORD_32, 0x10_0000)
    ensures Exec(Lu52iD(val / WORD_32 / 0x10_0000), Exec(Lu32iD(low20), Signed(val % WORD_32, WORD_32))) == val
  {
    var high32 := val / WORD_32;
    assert Signed(low20 * WORD_32, WORD_64) == low20 * WORD_32;
    assert Signed(val % WORD_32, WORD_32) % WORD_32 == val % WORD_32;
    assert (low20 * WORD_32 + val % WORD_32) % 0x10_0000_0000_0000 == (high32 % 0x10_0000) * WORD_32 + val % WORD_32;
  }

  // ----- The prologue -----

  /** Registers and 64-bit words of memory; register values and addresses are modulo 2^64. */
  datatype Machine = Machine(ra: nat, fp: nat, sp: nat, t0: nat, mem: map<nat, nat>)

  function Wrap(x: int): nat {
    x % WORD_64
  }

  /** addi.d has an immediate of 12 bits. */
  function AddImmediate(x: nat, imm: int): nat
    requires -2048 <= imm < 2048
  {
    Wrap(x + imm)
  }

  function SaveBoth(m: Machine): Machine {
    m.(mem := m.mem[Wrap(m.sp - 8) := m.ra][Wrap(m.sp - 16) := m.fp])
  }

  predicate IsImm12(x: int) {
    -0x800 <= x <= 0x7FF
  }

  lemma WrapSame(x: nat)
    requires x < WORD_64
    ensures Wrap(x) == x
  {
  }

  lemma WrapBack(x: nat, n: nat)
    requires x < WORD_64
    ensures Wrap(Wrap(x - n) + n) == x
  {
  }

  /** Both variants of the prologue: old registers saved below the old stack pointer, the frame
      pointer at the old stack pointer, the stack pointer a frame below. $t0 has the size of the frame if that
      is no immediate of addi.d, and keeps its value otherwise. */
  method Prologue(m: Machine, frameSize: nat) returns (m': Machine)
    requires frameSize < 0x8000_0000 && m.sp < WORD_64 && m.fp < WORD_64 && m.ra < WORD_64
    ensures m'.fp == m.sp && m'.sp == Wrap(m.sp - frameSize) && m'.ra == m.ra
    ensures m'.mem == m.mem[Wrap(m.sp - 8) := m.ra][Wrap(m.sp - 16) := m.fp]
    ensures m'.t0 == if frameSize <= 2048 then m.t0 else frameSize
  {
    hide Wrap, Execute;
    WrapSame(m.sp);
    WrapSame(frameSize);
    WrapBack(m.sp, frameSize);
    if IsImm12(0 - frameSize) {
      m' := SaveBoth(m);
      m' := m'.(fp := AddImmediate(m'.sp, 0));
      m' := m'.(sp := AddImmediate(m'.sp, 0 - frameSize));
    } else {
      var code := LoadLargeInt64(frameSize);
      m' := m.(t0 := Wrap(Execute(code, m.t0)));
      m' := SaveBoth(m');
      m' := m'.(sp := Wrap(m'.sp - m'.t0));
      m' := m'.(fp := Wrap(m'.sp + m'.t0));
    }
  }

  // ----- The frame in memory -----

  /** The bytes of the word at address a. */
  ghost predicate IsByteOf(x: nat, a: nat) {
    exists j: nat :: IsByte(x, a, j)
  }

  ghost predicate IsByte(x: nat, a: nat, j: nat) {
    j < 8 && x == Wrap(a + j)
  }

  /** The byte at x, relative to the frame pointer, is one of the word at a. */
  ghost predicate Touches(fp: nat, x: int, a: nat) {
    IsByteOf(Wrap(fp + x), a)
  }

  /** Of the words only those may have changed that have a byte of the region, which is relative to the
      frame pointer. */
  ghost predicate WritesOnly(mem: map<nat, nat>, mem': map<nat, nat>, fp: nat, r: Region) {
    forall a {:trigger mem[a]} {:trigger mem'[a]} ::
      a in mem && (forall x :: r.lo <= x < r.hi ==> !Touches(fp, x, a)) ==> a in mem' && mem'[a] == mem[a]
  }

  /** Whatever is stored to a value's place or to an allocated array, the words that the prologue saved stay. */
  lemma SavedWordsStay(m: Machine, m': Machine, mem: map<nat, nat>, slots: seq<Slot>, k: nat)
    requires SlotsOk(slots) && Fits(slots) && k < |slots| && m.sp < WORD_64
    requires m'.fp == m.sp && m'.mem == m.mem[Wrap(m.sp - 8) := m.ra][Wrap(m.sp - 16) := m.fp]
    requires WritesOnly(m'.mem, mem, m'.fp, ValueRegion(slots, k))
             || WritesOnly(m'.mem, mem, m'.fp, PayloadRegion(slots, k))
    ensures Wrap(m.sp - 8) in mem && mem[Wrap(m.sp - 8)] == m.ra
    ensures Wrap(m.sp - 16) in mem && mem[Wrap(m.sp - 16)] == m.fp
  {
    hide Wrap, Touches, ValueRegion, PayloadRegion, SlotsOk, Fits, FrameSize;
    var r := if WritesOnly(m'.mem, mem, m'.fp, ValueRegion(slots, k)) then ValueRegion(slots, k)
             else PayloadRegion(slots, k);
    BelowSaved(slots, k);
    WrapDiffers(m.sp, -8, -16);
    assert m'.mem[Wrap(m.sp - 8)] == m.ra && m'.mem[Wrap(m.sp - 16)] == m.fp;
    RegionApart(m.sp, r, Wrap(m.sp - 8), -8);
    RegionApart(m.sp, r, Wrap(m.sp - 16), -16);
  }

  lemma RegionApart(sp: nat, r: Region, a: nat, y: int)
    requires -0x8000_0000 < r.lo && r.hi <= -16 <= y <= -8 && a == Wrap(sp + y)
    ensures forall x :: r.lo <= x < r.hi ==> !Touches(sp, x, a)
  {
    hide Touches, Wrap;
    forall x | r.lo <= x < r.hi
      ensures !Touches(sp, x, a)
    {
      ByteApart(sp, x, y);
    }
  }

  lemma BelowSaved(slots: seq<Slot>, k: nat)
    requires SlotsOk(slots) && Fits(slots) && k < |slots|
    ensures -0x8000_0000 < ValueRegion(slots, k).lo && ValueRegion(slots, k).hi <= -16
    ensures -0x8000_0000 < PayloadRegion(slots, k).lo && PayloadRegion(slots, k).hi <= -16
  {
    assert OffsetAfter(slots, k + 1) + 16 < 0x8000_0000;
    SlotBounds(slots, k);
    OffsetsRise(slots, 0, k);
  }

  lemma WrapDiffers(sp: nat, x: int, y: int)
    requires -0x8000_0000 <= x < 0x8000_0000 && -0x8000_0000 <= y < 0x8000_0000 && x != y
    ensures Wrap(sp + x) != Wrap(sp + y)
  {
    if Wrap(sp + x) == Wrap(sp + y) { SameRemainder(sp + x, sp + y, WORD_64); }
  }

  lemma SameRemainder(x: int, y: int, n: nat)
    requires n > 0 && x % n == y % n && 0 - n < x - y < n
    ensures x == y
  {
    var q := x / n - y / n;
    assert x - y == n * q;
    if q >= 1 { MulAtLeast(q, n); }
    if q <= -1 { MulAtLeast(-q, n); }
  }

  lemma ByteApart(sp: nat, x: int, y: int)
    requires -0x8000_0000 < x < -16 <= y <= -8
    ensures !Touches(sp, x, Wrap(sp + y))
  {
    hide Wrap;
    if Touches(sp, x, Wrap(sp + y)) {
      var j: nat :| IsByte(Wrap(sp + x), Wrap(sp + y), j);
      WrapTwice(sp + y, j);
      WrapDiffers(sp, x, y + j);
    }
  }

  lemma WrapTwice(x: int, j: nat)
    ensures Wrap(Wrap(x) + j) == Wrap(x + j)
  {
  }
}
