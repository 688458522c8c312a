/** Placing a new device's registers: a bump allocator over the two windows. */
module BarAlloc {
  import opened Arith
  import opened Layout
  import opened Bars

  const SLOTS: nat := 6

  type Word = x: int | 0 <= x < U64

  /** What a device asks for at one index; size zero is an unused register. */
  datatype Want = Want(size: Word, kind: Kind)

  datatype Allocation = Granted(bars: map<nat, Bar>) | NotPowerOfTwo | Exhausted | NoHighHalf

  function WindowFor(kind: Kind, w64: Window): Window {
    if kind.Mem32? then WINDOW32 else w64
  }

  /** The two high-water marks. */
  datatype Marks = Marks(next32: nat, next64: nat)

  function Mark(m: Marks, kind: Kind): nat {
    if kind.Mem32? then m.next32 else m.next64
  }

  function Raised(m: Marks, kind: Kind, to: nat): Marks {
    if kind.Mem32? then m.(next32 := to) else m.(next64 := to)
  }

  function Stride(kind: Kind): nat {
    if kind.Mem64? then 2 else 1
  }

  /** At the next multiple of its size from the mark. */
  function NewBar(want: Want, m: Marks): Bar
    requires want.size > 0
  {
    Bar(AlignUp(Mark(m, want.kind), want.size), want.size, want.kind, false, false)
  }

  function Allocate(wants: seq<Want>, w64: Window, idx: nat, m: Marks, bars: map<nat, Bar>): Allocation
    requires |wants| == SLOTS
    decreases SLOTS - idx
  {
    if idx >= SLOTS then Granted(bars)
    else
      var want := wants[idx];
      if want.size == 0 then Allocate(wants, w64, idx + 1, m, bars)
      else if !PowerOfTwo(want.size) then NotPowerOfTwo
      else
        var b := NewBar(want, m);
        if b.addr + b.size > WindowFor(want.kind, w64).end then Exhausted
        else if want.kind.Mem64? && idx == 5 then NoHighHalf
        else Allocate(wants, w64, idx + Stride(want.kind), Raised(m, want.kind, b.addr + b.size), bars[idx := b])
  }

  /** The loop in `add_device_arc`. */
  method AllocateBars(wants: seq<Want>, w64: Window, low: Marks) returns (r: Allocation)
    requires |wants| == SLOTS
    ensures r == Allocate(wants, w64, 0, low, map[])
  {
    ghost var target := Allocate(wants, w64, 0, low, map[]);
    var m, idx: nat, bars: map<nat, Bar> := low, 0, map[];
    while idx < SLOTS
      invariant Allocate(wants, w64, idx, m, bars) == target
      decreases SLOTS - idx
    {
      var want := wants[idx];
      if want.size == 0 {
        idx := idx + 1;
        continue;
      }
      if !PowerOfTwo(want.size) {
        return NotPowerOfTwo;
      }
      var aligned := AlignUp(Mark(m, want.kind), want.size);
      if aligned + want.size > WindowFor(want.kind, w64).end {
        return Exhausted;
      }
      if want.kind.Mem64? && idx == 5 {
        return NoHighHalf;
      }
      m := Raised(m, want.kind, aligned + want.size);
      bars := bars[idx := Bar(aligned, want.size, want.kind, false, false)];
      idx := idx + Stride(want.kind);
    }
    return Granted(bars);
  }

  // ---- what is granted ----

  ghost predicate Good(b: Bar, w64: Window) {
    var w := WindowFor(b.kind, w64);
    Placed(b, w) && b.addr + b.size <= w.end
  }

  /** Registers of one device: in range, placed, and a 64-bit one has the next register to itself. */
  ghost predicate BarsOk(bars: map<nat, Bar>, w64: Window) {
    && (forall i :: i in bars ==> i < SLOTS && Good(bars[i], w64))
    && (forall i :: i in bars && bars[i].kind.Mem64? ==> i + 1 < SLOTS && i + 1 !in bars)
  }

  predicate RangesApart(a: nat, sizeA: nat, b: nat, sizeB: nat) {
    a + sizeA <= b || b + sizeB <= a
  }

  /** Between the marks the allocation started from and those it has reached. */
  ghost predicate Between(b: Bar, low: Marks, m: Marks) {
    Mark(low, b.kind) <= b.addr && b.addr + b.size <= Mark(m, b.kind)
  }

  /** No two registers of one kind overlap. */
  ghost predicate Apart(bars: map<nat, Bar>) {
    forall i, j :: i in bars && j in bars && i != j && bars[i].kind == bars[j].kind ==>
      RangesApart(bars[i].addr, bars[i].size, bars[j].addr, bars[j].size)
  }

  ghost predicate SoFar(bars: map<nat, Bar>, w64: Window, idx: nat, low: Marks, m: Marks) {
    && low.next32 <= m.next32 && low.next64 <= m.next64
    && BarsOk(bars, w64) && Apart(bars)
    && BelowMarks(bars, idx, low, m)
  }

  ghost predicate Start(low: Marks, w64: Window) {
    WINDOW32.start <= low.next32 && w64.start <= low.next64
  }

  /** Inside its window, aligned, apart, and above the marks. */
  ghost predicate Sound(bars: map<nat, Bar>, w64: Window, low: Marks) {
    && BarsOk(bars, w64) && Apart(bars)
    && (forall i :: i in bars ==> Mark(low, bars[i].kind) <= bars[i].addr)
  }

  lemma NewBarIsGood(want: Want, w64: Window, low: Marks, m: Marks)
    requires want.size > 0 && PowerOfTwo(want.size) && Start(low, w64)
    requires low.next32 <= m.next32 && low.next64 <= m.next64
    requires var b := NewBar(want, m); b.addr + b.size <= WindowFor(want.kind, w64).end
    ensures Good(NewBar(want, m), w64) && Mark(m, want.kind) <= NewBar(want, m).addr
  {
    PowerOfTwoIs(want.size);
    AlignUpIs(Mark(m, want.kind), want.size);
  }

  /** One more register. */
  lemma PlaceOne(bars: map<nat, Bar>, w64: Window, idx: nat, low: Marks, m: Marks, b: Bar)
    requires SoFar(bars, w64, idx, low, m) && idx + Stride(b.kind) <= SLOTS
    requires Good(b, w64) && Mark(m, b.kind) <= b.addr
    ensures SoFar(bars[idx := b], w64, idx + Stride(b.kind), low, Raised(m, b.kind, b.addr + b.size))
  {
    OneMoreOk(bars, w64, idx, b);
    OneMoreApart(bars, idx, low, m, b);
    OneMoreBetween(bars, idx, low, m, b);
  }

  /** All registers so far end at or before `idx`, and below the marks. */
  ghost predicate BelowMarks(bars: map<nat, Bar>, idx: nat, low: Marks, m: Marks) {
    forall i :: i in bars ==> i + Stride(bars[i].kind) <= idx && Between(bars[i], low, m)
  }

  lemma OneMoreOk(bars: map<nat, Bar>, w64: Window, idx: nat, b: Bar)
    requires BarsOk(bars, w64) && Good(b, w64) && idx + Stride(b.kind) <= SLOTS
    requires forall i :: i in bars ==> i + Stride(bars[i].kind) <= idx
    ensures BarsOk(bars[idx := b], w64)
  {
  }

  lemma OneMoreApart(bars: map<nat, Bar>, idx: nat, low: Marks, m: Marks, b: Bar)
    requires Apart(bars) && BelowMarks(bars, idx, low, m) && Mark(m, b.kind) <= b.addr
    ensures Apart(bars[idx := b])
  {
    var more := bars[idx := b];
    forall i, j | i in more && j in more && i != j && more[i].kind == more[j].kind
      ensures RangesApart(more[i].addr, more[i].size, more[j].addr, more[j].size)
    {
      assert i != idx ==> Between(bars[i], low, m);
      assert j != idx ==> Between(bars[j], low, m);
    }
  }

  lemma OneMoreBetween(bars: map<nat, Bar>, idx: nat, low: Marks, m: Marks, b: Bar)
    requires BelowMarks(bars, idx, low, m) && Mark(low, b.kind) <= Mark(m, b.kind) <= b.addr
    ensures BelowMarks(bars[idx := b], idx + Stride(b.kind), low, Raised(m, b.kind, b.addr + b.size))
  {
    var more := bars[idx := b];
    forall i | i in more
      ensures i + Stride(more[i].kind) <= idx + Stride(b.kind)
      ensures Between(more[i], low, Raised(m, b.kind, b.addr + b.size))
    {
      assert i != idx ==> Between(bars[i], low, m);
    }
  }

  lemma SoFarIsSound(bars: map<nat, Bar>, w64: Window, idx: nat, low: Marks, m: Marks)
    requires SoFar(bars, w64, idx, low, m)
    ensures Sound(bars, w64, low)
  {
  }

  /** A register that is asked for either ends the allocation or is placed, and the rest follows. */
  lemma StepPlaces(wants: seq<Want>, w64: Window, idx: nat, low: Marks, m: Marks, bars: map<nat, Bar>)
    returns (placed: bool, b: Bar)
    requires |wants| == SLOTS && idx < SLOTS && wants[idx].size > 0
    requires low.next32 <= m.next32 && low.next64 <= m.next64 && Start(low, w64)
    ensures !placed ==> !Allocate(wants, w64, idx, m, bars).Granted?
    ensures placed ==>
      && Good(b, w64) && Mark(m, b.kind) <= b.addr && b.size == wants[idx].size && b.kind == wants[idx].kind
      && idx + Stride(b.kind) <= SLOTS
      && Allocate(wants, w64, idx, m, bars)
         == Allocate(wants, w64, idx + Stride(b.kind), Raised(m, b.kind, b.addr + b.size), bars[idx := b])
  {
    var want := wants[idx];
    b := NewBar(want, m);
    placed := && PowerOfTwo(want.size)
              && b.addr + b.size <= WindowFor(want.kind, w64).end
              && !(want.kind.Mem64? && idx == 5);
    if placed {
      NewBarIsGood(want, w64, low, m);
    }
  }

  lemma {:induction false} AllocateSound(
    wants: seq<Want>, w64: Window, idx: nat, low: Marks, m: Marks, bars: map<nat, Bar>, r: Allocation)
    requires |wants| == SLOTS && SoFar(bars, w64, idx, low, m) && Start(low, w64)
    requires r == Allocate(wants, w64, idx, m, bars) && r.Granted?
    ensures Sound(r.bars, w64, low)
    decreases SLOTS - idx
  {
    if idx >= SLOTS {
      SoFarIsSound(bars, w64, idx, low, m);
    } else if wants[idx].size == 0 {
      AllocateSound(wants, w64, idx + 1, low, m, bars, r);
    } else {
      var placed, b := StepPlaces(wants, w64, idx, low, m, bars);
      PlaceOne(bars, w64, idx, low, m, b);
      AllocateSound(wants, w64, idx + Stride(b.kind), low, Raised(m, b.kind, b.addr + b.size), bars[idx := b], r);
    }
  }

  lemma GrantIsSound(wants: seq<Want>, w64: Window, low: Marks)
    requires |wants| == SLOTS && Start(low, w64)
    ensures var r := Allocate(wants, w64, 0, low, map[]);
      r.Granted? ==> Sound(r.bars, w64, low)
  {
    var r := Allocate(wants, w64, 0, low, map[]);
    if r.Granted? {
      AllocateSound(wants, w64, 0, low, low, map[], r);
    }
  }

  /** The register belongs to the one at that index or is its high half. */
  ghost predicate Owned(bars: map<nat, Bar>, i: nat) {
    i in bars || (i > 0 && i - 1 in bars && bars[i - 1].kind.Mem64?)
  }

  /** Below `idx`, what was asked for is there, unless it is the high half of the one before. */
  ghost predicate Answered(wants: seq<Want>, idx: nat, bars: map<nat, Bar>)
    requires |wants| == SLOTS
  {
    && (forall i :: i in bars ==> i < SLOTS && bars[i].size == wants[i].size && bars[i].kind == wants[i].kind)
    && (forall i: nat :: i < SLOTS && i < idx && wants[i].size > 0 ==> Owned(bars, i))
  }

  lemma AnswerNone(wants: seq<Want>, idx: nat, bars: map<nat, Bar>)
    requires |wants| == SLOTS && idx < SLOTS && Answered(wants, idx, bars) && wants[idx].size == 0
    ensures Answered(wants, idx + 1, bars)
  {
  }

  lemma AnswerOne(wants: seq<Want>, idx: nat, bars: map<nat, Bar>, b: Bar)
    requires |wants| == SLOTS && idx < SLOTS && Answered(wants, idx, bars)
    requires b.size == wants[idx].size && b.kind == wants[idx].kind && idx !in bars
    ensures Answered(wants, idx + Stride(b.kind), bars[idx := b])
  {
  }

  lemma {:induction false} AllocateAnswers(
    wants: seq<Want>, w64: Window, idx: nat, low: Marks, m: Marks, bars: map<nat, Bar>, r: Allocation)
    requires |wants| == SLOTS && SoFar(bars, w64, idx, low, m) && Start(low, w64) && Answered(wants, idx, bars)
    requires r == Allocate(wants, w64, idx, m, bars) && r.Granted?
    ensures Answered(wants, SLOTS, r.bars)
    decreases SLOTS - idx
  {
    if idx < SLOTS && wants[idx].size == 0 {
      AnswerNone(wants, idx, bars);
      AllocateAnswers(wants, w64, idx + 1, low, m, bars, r);
    } else if idx < SLOTS {
      var placed, b := StepPlaces(wants, w64, idx, low, m, bars);
      PlaceOne(bars, w64, idx, low, m, b);
      AnswerOne(wants, idx, bars, b);
      AllocateAnswers(wants, w64, idx + Stride(b.kind), low, Raised(m, b.kind, b.addr + b.size), bars[idx := b], r);
    }
  }

  /** A device gets every register it asked for, of the size and kind it asked for. */
  lemma GrantIsComplete(wants: seq<Want>, w64: Window, low: Marks)
    requires |wants| == SLOTS && Start(low, w64)
    ensures var r := Allocate(wants, w64, 0, low, map[]); r.Granted? ==> Answered(wants, SLOTS, r.bars)
  {
    var r := Allocate(wants, w64, 0, low, map[]);
    if r.Granted? {
      AllocateAnswers(wants, w64, 0, low, low, map[], r);
    }
  }

  // ---- windows that share a start ----

  /** A 32-bit register and then a 64-bit one, 4 KiB each, and nothing else. */
  ghost predicate OneOfEach(wants: seq<Want>) {
    && |wants| == SLOTS && wants[0] == Want(0x1000, Mem32) && wants[1] == Want(0x1000, Mem64)
    && forall i :: 2 <= i < SLOTS ==> wants[i].size == 0
  }

  lemma {:induction false} NothingMore(wants: seq<Want>, w64: Window, idx: nat, m: Marks, bars: map<nat, Bar>)
    requires |wants| == SLOTS && forall i :: idx <= i < SLOTS ==> wants[i].size == 0
    ensures Allocate(wants, w64, idx, m, bars) == Granted(bars)
    decreases SLOTS - idx
  {
    if idx < SLOTS {
      NothingMore(wants, w64, idx + 1, m, bars);
    }
  }

  /** A register that is asked for where the mark is already aligned. */
  lemma PlacedAtMark(wants: seq<Want>, w64: Window, idx: nat, m: Marks, bars: map<nat, Bar>)
    requires |wants| == SLOTS && idx < 5 && PowerOfTwo(wants[idx].size) && wants[idx].size > 0
    requires var k := wants[idx].kind;
      Mark(m, k) % wants[idx].size == 0 && Mark(m, k) + wants[idx].size <= WindowFor(k, w64).end
    ensures var k := wants[idx].kind;
      Allocate(wants, w64, idx, m, bars)
        == Allocate(wants, w64, idx + Stride(k), Raised(m, k, Mark(m, k) + wants[idx].size),
                    bars[idx := Bar(Mark(m, k), wants[idx].size, k, false, false)])
  {
    AlignedAlready(Mark(m, wants[idx].kind), wants[idx].size);
  }

  lemma AlignedAlready(x: nat, m: nat)
    requires m > 0 && x % m == 0
    ensures AlignUp(x, m) == x
  {
    AlignUpLeast(x, m, x);
    AlignUpIs(x, m);
  }

  lemma PageIsPowerOfTwo()
    ensures PowerOfTwo(0x1000)
  {
    KnownPowers();
    assert Pow2(4) == 2 * Pow2(3) == 4 * Pow2(2) == 8 * Pow2(1) == 16;
    Pow2Adds(4, 4);
    Pow2Adds(8, 4);
    assert IsPow2(0x1000);
    PowerOfTwoIs(0x1000);
  }

  lemma BothPlaced(wants: seq<Want>, w64: Window)
    requires OneOfEach(wants) && w64.start == WINDOW32.start && w64.end >= WINDOW32.end
    ensures var r := Allocate(wants, w64, 0, Marks(WINDOW32.start, w64.start), map[]);
      r.Granted? && 0 in r.bars && 1 in r.bars && r.bars[0].addr == r.bars[1].addr
  {
    PageIsPowerOfTwo();
    var m := Marks(WINDOW32.start, w64.start);
    PlacedAtMark(wants, w64, 0, m, map[]);
    var m0 := Raised(m, Mem32, WINDOW32.start + 0x1000);
    var b0 := Bar(WINDOW32.start, 0x1000, Mem32, false, false);
    PlacedAtMark(wants, w64, 1, m0, map[][0 := b0]);
    var b1 := Bar(w64.start, 0x1000, Mem64, false, false);
    NothingMore(wants, w64, 3, Raised(m0, Mem64, w64.start + 0x1000), map[][0 := b0][1 := b1]);
  }
}
