/** One base address register, as the guest sizes and programs it: 64-bit ones in two halves, each
    written on its own while the other is stale. */
module Bars {
  import opened Arith
  import opened Layout

  const U64: nat := 0x1_0000_0000_0000_0000
  const ONES: nat := 0xFFFF_FFFF

  /** The size of a register that is in use. */
  type Size = x: int | 0 < x < U64 witness 1

  datatype Kind = Mem32 | Mem64

  /** `probingLo` and `probingHi` stand between an all-ones write and the read that answers it. */
  datatype Bar = Bar(addr: nat, size: Size, kind: Kind, probingLo: bool, probingHi: bool)

  // ---- reads ----

  /** The complement of `size - 1` in 64 bits. */
  function Mask(size: Size): nat {
    U64 - size
  }

  /** The low half with the type bits set into it. */
  function LowRegister(addr: nat, kind: Kind): nat {
    if kind.Mem32? then addr % G else addr % G - addr % 16 + 12 + addr % 4
  }

  function ReadValue(b: Bar, high: bool): nat {
    if high then if b.probingHi then Mask(b.size) / G else b.addr / G % G
    else if b.probingLo then Mask(b.size) % G / 16 * 16
    else LowRegister(b.addr, b.kind)
  }

  /** A read uses up the probe. */
  function AfterRead(b: Bar, high: bool): Bar {
    if high then b.(probingHi := false) else b.(probingLo := false)
  }

  // ---- writes ----

  /** The address a write asks for: one half replaced, then rounded down to the size. */
  function Requested(b: Bar, high: bool, raw: nat): nat {
    AlignDown(if high then Join(raw, b.addr % G) else Join(b.addr / G, raw / 16 * 16), b.size)
  }

  function AfterWrite(b: Bar, w: Window, high: bool, raw: nat): Bar {
    if raw == ONES then if high then b.(probingHi := true) else b.(probingLo := true)
    else if Within(w, Requested(b, high, raw)) then b.(addr := Requested(b, high, raw))
    else b
  }

  lemma LowIsSixteens(addr: nat)
    requires addr % 16 == 0
    ensures addr % G % 16 == 0 && addr % G + 16 <= G
  {
    var q, n := addr / G, addr / 16;
    assert addr == n * 16;
    assert addr % G == 16 * (n - q * 0x1000_0000);
  }

  /** The type bits go into the low four, and come out again. */
  lemma TypeInLowBits(addr: nat, kind: Kind)
    requires addr % 16 == 0
    ensures var lo, bits := LowRegister(addr, kind), if kind.Mem64? then 12 else 0;
      lo < G && lo % 16 == bits && lo / 16 * 16 == addr % G
  {
    LowIsSixteens(addr);
    var low, bits := addr % G, if kind.Mem64? then 12 else 0;
    assert addr % 4 == 0;
    assert LowRegister(addr, kind) == low + bits;
    DivModUnique(low + bits, low / 16, bits, 16);
  }

  /** A register that is not being sized reads as its address with its type in the low four bits. */
  lemma ReadsAddress(b: Bar)
    requires IsPow2(b.size) && b.size >= 16 && b.addr % b.size == 0 && b.addr < U64
    requires !b.probingLo && !b.probingHi
    ensures var lo, hi := ReadValue(b, false), ReadValue(b, true);
      && lo < G && hi < G
      && Join(hi, lo / 16 * 16) == b.addr && lo % 16 == (if b.kind.Mem64? then 12 else 0)
  {
    SixteenDivides(b.size);
    DividesTrans(16, b.size, b.addr);
    TypeInLowBits(b.addr, b.kind);
    HighHalf(b.addr);
    JoinSelf(b.addr);
    assert ReadValue(b, true) == b.addr / G && ReadValue(b, false) == LowRegister(b.addr, b.kind);
  }

  lemma HighHalf(addr: nat)
    requires addr < U64
    ensures addr / G < G && addr / G % G == addr / G
  {
  }

  // ---- placement ----

  ghost predicate Placed(b: Bar, w: Window) {
    IsPow2(b.size) && b.size <= w.end - w.start && Within(w, b.addr) && b.addr % b.size == 0
  }

  /** Only the base of a move is checked, and that is enough to keep the whole register inside. */
  lemma WriteKeepsPlaced(b: Bar, w: Window, high: bool, raw: nat)
    requires Placed(b, w) && Roomy(w)
    ensures var c := AfterWrite(b, w, high, raw);
      Placed(c, w) && c.addr + c.size <= w.end && c.size == b.size && c.kind == b.kind
  {
    var c := AfterWrite(b, w, high, raw);
    AlignDownIs(if high then Join(raw, b.addr % G) else Join(b.addr / G, raw / 16 * 16), b.size);
    AlignedFits(w, c.addr, c.size);
  }

  // ---- sizing ----

  /** Writing all ones to both halves and reading them back, low half first. */
  function Probed(b: Bar, w: Window): Bar {
    AfterWrite(AfterWrite(b, w, false, ONES), w, true, ONES)
  }

  /** What a guest takes for the size of a 64-bit register, and of a 32-bit one. */
  function Decoded64(lo: nat, hi: nat): int {
    U64 - Join(hi, lo / 16 * 16)
  }

  function Decoded32(lo: nat): int {
    G - lo / 16 * 16
  }

  function AtLeast16(size: nat): nat {
    if size < 16 then 16 else size
  }

  lemma SixteenDivides(size: nat)
    requires IsPow2(size) && size >= 16
    ensures size % 16 == 0
  {
    assert Pow2(4) == 2 * Pow2(3) == 4 * Pow2(2) == 8 * Pow2(1) == 16;
    PowersDivide(16, size);
  }

  /** The halves of a mask, with the type bits cleared, put together again. */
  lemma MaskJoins(size: Size)
    requires size % 16 == 0 || size < 16
    ensures Join(Mask(size) / G, Mask(size) % G / 16 * 16) == U64 - AtLeast16(size)
  {
    var m := Mask(size);
    var hi, lo := m / G, m % G;
    assert m == hi * G + lo;
    if size % 16 == 0 {
      assert lo % 16 == 0;
    } else {
      assert m / 16 == (U64 - 16) / 16;
    }
  }

  lemma LowMask(size: Size)
    requires size < G && (size % 16 == 0 || size < 16)
    ensures Mask(size) % G / 16 * 16 == G - AtLeast16(size)
  {
    assert Mask(size) % G == G - size;
  }

  /** The mask decodes to the size, or to 16 for a register smaller than the type bits leave room
      for; the address is unchanged and the next reads give it again. */
  lemma SizingDecodes(b: Bar, w: Window)
    requires IsPow2(b.size) && !b.probingLo && !b.probingHi
    ensures var p := Probed(b, w);
      && Decoded64(ReadValue(p, false), ReadValue(p, true)) == AtLeast16(b.size)
      && (b.size < G ==> Decoded32(ReadValue(p, false)) == AtLeast16(b.size))
      && AfterRead(AfterRead(p, false), true) == b
  {
    if b.size >= 16 {
      SixteenDivides(b.size);
    }
    assert Probed(b, w) == b.(probingLo := true, probingHi := true);
    MaskJoins(b.size);
    if b.size < G {
      LowMask(b.size);
    }
    Sixteens(Mask(b.size) % G);
  }

  lemma Sixteens(x: nat)
    ensures x / 16 * 16 / 16 * 16 == x / 16 * 16
  {
  }

  // ---- programming ----

  /** Writing the two halves of `t`. */
  function LowFirst(b: Bar, w: Window, t: nat): Bar {
    AfterWrite(AfterWrite(b, w, false, t % G), w, true, t / G)
  }

  function HighFirst(b: Bar, w: Window, t: nat): Bar {
    AfterWrite(AfterWrite(b, w, true, t / G), w, false, t % G)
  }

  /** An address the register could be programmed with. */
  ghost predicate Target(b: Bar, w: Window, t: nat) {
    Placed(b, w) && b.size >= 16 && Within(w, t) && t % b.size == 0 && t / G < ONES
  }

  /** Halves of multiples of a size that divides 4 GiB are multiples, and so are their mixtures. */
  lemma HalvesAligned(a: nat, t: nat, size: nat)
    requires size >= 16 && IsPow2(size) && size <= G && a % size == 0 && t % size == 0
    ensures Join(a / G, t % G) % size == 0 && t % G % 16 == 0 && t % G < ONES
  {
    KnownPowers();
    PowersDivide(size, G);
    SixteenDivides(size);
    WholePart(a, size);
    WholePart(t, size);
    MultipleSum(t, t / G * G, size);
    MultipleSum(a / G * G, t % G, size);
    DividesTrans(16, size, t % G);
  }

  lemma WholePart(x: nat, size: nat)
    requires size > 0 && G % size == 0 && x % size == 0
    ensures (x / G * G) % size == 0
  {
    ModOfMultiple(x / G, G);
    DividesTrans(size, G, x / G * G);
  }

  /** What each half-write asks for. */
  lemma RequestsLow(b: Bar, w: Window, t: nat)
    requires Target(b, w, t) && b.size <= G
    ensures t % G < ONES && Requested(b, false, t % G) == Join(b.addr / G, t % G)
  {
    HalvesAligned(b.addr, t, b.size);
    AlignDownExact(Join(b.addr / G, t % G), b.size);
  }

  lemma RequestsHigh(b: Bar, w: Window, t: nat)
    requires Target(b, w, t) && b.size <= G
    ensures Requested(b, true, t / G) == Join(t / G, b.addr % G)
  {
    HalvesAligned(t, b.addr, b.size);
    AlignDownExact(Join(t / G, b.addr % G), b.size);
  }

  lemma JoinParts(hi: nat, lo: nat)
    requires lo < G
    ensures Join(hi, lo) / G == hi && Join(hi, lo) % G == lo
  {
  }

  lemma JoinSelf(x: nat)
    ensures Join(x / G, x % G) == x
  {
  }

  /** Low half first arrives exactly when the mixture in between is inside the window. */
  lemma LowFirstArrivesIff(b: Bar, w: Window, t: nat)
    requires Target(b, w, t) && b.size <= G && Roomy(w)
    ensures LowFirst(b, w, t).addr == t <==> Within(w, Join(b.addr / G, t % G))
  {
    RequestsLow(b, w, t);
    JoinParts(b.addr / G, t % G);
    JoinSelf(t);
    JoinSelf(b.addr);
    var c := AfterWrite(b, w, false, t % G);
    assert c.addr == if Within(w, Join(b.addr / G, t % G)) then Join(b.addr / G, t % G) else b.addr;
    WriteKeepsPlaced(b, w, false, t % G);
    RequestsHigh(c, w, t);
    JoinParts(t / G, c.addr % G);
  }

  /** And high half first exactly when the other mixture is. */
  lemma HighFirstArrivesIff(b: Bar, w: Window, t: nat)
    requires Target(b, w, t) && b.size <= G && Roomy(w)
    ensures HighFirst(b, w, t).addr == t <==> Within(w, Join(t / G, b.addr % G))
  {
    RequestsHigh(b, w, t);
    JoinParts(t / G, b.addr % G);
    JoinSelf(t);
    JoinSelf(b.addr);
    var c := AfterWrite(b, w, true, t / G);
    assert c.addr == if Within(w, Join(t / G, b.addr % G)) then Join(t / G, b.addr % G) else b.addr;
    WriteKeepsPlaced(b, w, true, t / G);
    RequestsLow(c, w, t);
    JoinParts(c.addr / G, t % G);
  }

  /** A register larger than 4 GiB has nothing in its low half. */
  lemma LargeArrives(b: Bar, w: Window, t: nat)
    requires Target(b, w, t) && b.size > G && Roomy(w)
    ensures LowFirst(b, w, t).addr == t && HighFirst(b, w, t).addr == t
  {
    KnownPowers();
    PowersDivide(G, b.size);
    DividesTrans(G, b.size, t);
    DividesTrans(G, b.size, b.addr);
    assert Join(b.addr / G, 0) == b.addr && Join(t / G, 0) == t;
    AlignDownExact(b.addr, b.size);
    AlignDownExact(t, b.size);
  }

  /** So in a rectangular window either order programs any aligned address, from any other. */
  lemma EitherOrderArrives(b: Bar, w: Window, t: nat)
    requires Target(b, w, t) && Roomy(w) && Rectangular(w)
    ensures LowFirst(b, w, t).addr == t && HighFirst(b, w, t).addr == t
  {
    if b.size <= G {
      LowFirstArrivesIff(b, w, t);
      HighFirstArrivesIff(b, w, t);
    } else {
      LargeArrives(b, w, t);
    }
  }

  /** Which the window is on every processor. */
  lemma ProgrammingArrives(b: Bar, physBits: nat, t: nat)
    requires Target(b, Window64(physBits), t)
    ensures LowFirst(b, Window64(physBits), t).addr == t && HighFirst(b, Window64(physBits), t).addr == t
  {
    Window64IsRoomy(physBits);
    Window64IsRectangular(physBits);
    EitherOrderArrives(b, Window64(physBits), t);
  }
}
