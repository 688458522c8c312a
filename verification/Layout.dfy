/** Guest physical address space: where RAM goes, and the windows PCI devices are placed in. */
module Layout {
  import opened Arith

  /** 4 GiB, the reach of one half of a 64-bit register. */
  const G: nat := 0x1_0000_0000

  const MMIO_HOLE_START: nat := 0xC000_0000
  const MMIO_HOLE_END: nat := G
  const MMIO64_MAX_SIZE: nat := 0x10_0000_0000

  datatype Window = Window(start: nat, end: nat)

  predicate Within(w: Window, addr: nat) {
    w.start <= addr < w.end
  }

  /** For small registers, below 4 GiB. */
  const WINDOW32: Window := Window(0xC000_0000, 0xE000_0000)

  function ClampBits(physBits: nat): nat {
    if physBits < 32 then 32 else if physBits > 63 then 63 else physBits
  }

  /** `mmio64_window`: the top of what the processor can address, at most a quarter of it. */
  function Window64(physBits: nat): (w: Window)
    ensures w.start < w.end == Pow2(ClampBits(physBits))
  {
    var addressable := Pow2(ClampBits(physBits));
    KnownPowers();
    Pow2Divides(32, ClampBits(physBits));
    var size := if MMIO64_MAX_SIZE < addressable / 4 then MMIO64_MAX_SIZE else addressable / 4;
    Window(addressable - size, addressable)
  }

  // ---- windows a device fits ----

  /** A power of two no larger than the window divides its end, so an aligned base inside the window
      has all of its region inside. */
  ghost predicate Roomy(w: Window) {
    w.start < w.end && forall size: nat :: IsPow2(size) && size <= w.end - w.start ==> size > 0 && w.end % size == 0
  }

  lemma AlignedFits(w: Window, addr: nat, size: nat)
    requires Roomy(w) && IsPow2(size) && size <= w.end - w.start
    requires Within(w, addr) && addr % size == 0
    ensures addr + size <= w.end
  {
    MultiplesApart(addr, w.end, size);
  }

  lemma Window32IsRoomy()
    ensures Roomy(WINDOW32)
  {
    KnownPowers();
    forall size: nat | IsPow2(size) && size <= 0x2000_0000 ensures size > 0 && 0xE000_0000 % size == 0 {
      PowersDivide(size, 0x2000_0000);
      assert 0xE000_0000 % 0x2000_0000 == 0;
      DividesTrans(size, 0x2000_0000, 0xE000_0000);
    }
  }

  lemma Window64IsRoomy(physBits: nat)
    ensures Roomy(Window64(physBits))
  {
    var w := Window64(physBits);
    forall size: nat | IsPow2(size) && size <= w.end - w.start ensures size > 0 && w.end % size == 0 {
      PowersDivide(size, w.end);
    }
  }

  lemma QuarterIsBlocks(bits: nat)
    requires bits >= 34
    ensures Pow2(bits) == 4 * Pow2(bits - 2) && Pow2(bits - 2) >= G && Pow2(bits - 2) % G == 0
  {
    KnownPowers();
    assert Pow2(bits) == 2 * Pow2(bits - 1) == 4 * Pow2(bits - 2);
    Pow2Divides(32, bits - 2);
  }

  /** With 34 address bits or more the window is above 4 GiB and made of whole 4 GiB blocks. */
  lemma Window64IsBlocks(physBits: nat)
    requires physBits >= 34
    ensures var w := Window64(physBits); w.start >= 2 * G && w.start % G == 0 && w.end % G == 0
  {
    QuarterIsBlocks(ClampBits(physBits));
    BlocksBelow(Pow2(ClampBits(physBits) - 2));
  }

  lemma BlocksBelow(quarter: nat)
    requires quarter >= G && quarter % G == 0
    ensures var top, size := 4 * quarter, if MMIO64_MAX_SIZE < quarter then MMIO64_MAX_SIZE else quarter;
      top % G == 0 && top - size >= 2 * G && (top - size) % G == 0
  {
    var n := quarter / G;
    assert quarter == n * G;
  }

  /** The two windows are apart exactly when the processor addresses more than 32 bits. */
  lemma WindowsApartIff(physBits: nat)
    ensures WINDOW32.end <= Window64(physBits).start <==> physBits >= 33
  {
    var bits := ClampBits(physBits);
    KnownPowers();
    if physBits >= 34 {
      Window64IsBlocks(physBits);
    }
  }

  // ---- 64-bit registers in halves ----

  function Join(hi: nat, lo: nat): nat {
    hi * G + lo
  }

  /** Either half of one address in the window goes with the other half of any other. */
  ghost predicate Rectangular(w: Window) {
    forall a: nat, b: nat :: Within(w, a) && Within(w, b) ==> Within(w, Join(a / G, b % G))
  }

  lemma BlocksAreRectangular(w: Window)
    requires w.start % G == 0 && w.end % G == 0
    ensures Rectangular(w)
  {
  }

  lemma OneBlockIsRectangular(w: Window)
    requires w.start < w.end && w.start / G == (w.end - 1) / G
    ensures Rectangular(w)
  {
  }

  /** Whatever the processor, the window chosen for it is one or the other. */
  lemma Window64IsRectangular(physBits: nat)
    ensures Rectangular(Window64(physBits))
  {
    var bits := ClampBits(physBits);
    if bits >= 34 {
      Window64IsBlocks(physBits);
      BlocksAreRectangular(Window64(physBits));
    } else {
      KnownPowers();
      OneBlockIsRectangular(Window64(physBits));
    }
  }

  // ---- RAM ----

  datatype Ram = Ram(start: nat, size: nat)

  function RamRegions(memSize: nat): seq<Ram> {
    if memSize <= MMIO_HOLE_START then [Ram(0, memSize)]
    else [Ram(0, MMIO_HOLE_START), Ram(MMIO_HOLE_END, memSize - MMIO_HOLE_START)]
  }

  function RamTop(memSize: nat): nat {
    var last := RamRegions(memSize)[|RamRegions(memSize)| - 1];
    last.start + last.size
  }

  /** `fits_above` */
  predicate FitsAbove(w: Window, ramTop: nat) {
    ramTop <= w.start
  }

  /** All of a guest's memory is there, none of it in the hole, and if it fits below the 64-bit
      window then none is in either window. */
  lemma RamAvoidsDevices(memSize: nat, physBits: nat, addr: nat, i: nat)
    requires i < |RamRegions(memSize)|
    requires var r := RamRegions(memSize)[i]; r.start <= addr < r.start + r.size
    ensures !(MMIO_HOLE_START <= addr < MMIO_HOLE_END) && !Within(WINDOW32, addr)
    ensures FitsAbove(Window64(physBits), RamTop(memSize)) ==> !Within(Window64(physBits), addr)
    ensures var rs := RamRegions(memSize); memSize == rs[0].size + (if |rs| > 1 then rs[1].size else 0)
  {
  }
}
