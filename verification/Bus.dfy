/** The bus as a value: adding devices, and everything a guest can do to configuration space, through
    the ports or through the memory-mapped window. */
module Bus {
  import opened Wrappers
  import opened Arith
  import opened Segments
  import opened Layout
  import opened Bars
  import opened BarAlloc
  import opened PciTypes
  import opened Doorbells
  import opened BusIndex
  import opened CapList

  const FIRST_BAR: nat := 0x10
  const LAST_BAR: nat := 0x27
  const CONFIG_ADDRESS: nat := 0xCF8
  const CONFIG_DATA: nat := 0xCFC
  const ENABLE: nat := 0x8000_0000
  const ECAM_BASE: nat := 0xE000_0000
  const ECAM_SIZE: nat := 0x10_0000
  const ECAM_FUNCTION_SIZE: nat := 0x1000

  datatype State = State(
    w64: Window, devices: map<Bdf, Entry>, nextDev: nat, configAddr: nat,
    regions: seq<Region>, bells: Bells, registrar: bool)

  function Fresh(w64: Window, registrar: bool): State {
    State(w64, map[], 1, 0, [], Bells([], []), registrar)
  }

  // ---- adding a device ----

  function Grant(b: State, d: Device): Allocation {
    Allocate(d.wants, b.w64, 0, MarksOf(b.regions, b.w64), map[])
  }

  /** Thirty-one devices fit, and a device fits if all its registers do. */
  predicate Fits(b: State, d: Device) {
    b.nextDev <= 31 && Grant(b, d).Granted?
  }

  function Added(b: State, d: Device, ans: Answers): State {
    if !Fits(b, d) then b
    else
      var bdf, bars := Bdf(0, b.nextDev, 0), Grant(b, d).bars;
      b.(devices := b.devices[bdf := Entry(d, bars)], nextDev := b.nextDev + 1,
         regions := b.regions + RegionsOf(bdf, bars, SLOTS),
         bells := if b.registrar then Registered(b.bells, bdf, d.doors, bars, ans, |d.doors|) else b.bells)
  }

  // ---- configuration space ----

  /** The register at this offset, of the six. */
  function SlotAt(offset: nat): Option<nat> {
    if FIRST_BAR <= offset <= LAST_BAR then Some((offset - FIRST_BAR) / 4) else None
  }

  datatype Found = Nothing | Half(idx: nat, high: bool)

  /** The BAR that answers for a register, which may be the one before it. */
  function FindBar(bars: map<nat, Bar>, slot: nat): (f: Found)
    ensures f.Half? ==> f.idx in bars && (f.high ==> bars[f.idx].kind.Mem64?)
  {
    if slot in bars then Half(slot, false)
    else if slot > 0 && slot - 1 in bars && bars[slot - 1].kind.Mem64? then Half(slot - 1, true)
    else Nothing
  }

  function FromLe4(bytes: seq<Byte>): nat
    requires |bytes| >= 4
  {
    var b0: nat, b1: nat, b2: nat, b3: nat := bytes[0], bytes[1], bytes[2], bytes[3];
    b0 + 0x100 * b1 + 0x1_0000 * b2 + 0x100_0000 * b3
  }

  /** Bytes of a register value from a place inside it, zero past its end. */
  function Lanes(value: nat, from: nat, len: nat): seq<Byte> {
    seq<Byte>(len, i requires 0 <= i < len => if from + i < 4 then Le32(value)[from + i] else 0)
  }

  /** The synthetic host bridge: a 440FX that has nothing else to say. */
  function BridgeByte(k: nat): Byte {
    if k == 0 then 0x86 else if k == 1 then 0x80 else if k == 2 then 0x37 else if k == 3 then 0x12
    else if k == 4 then 0x06 else if k == 8 then 0x02 else if k == 0x0b then 0x06 else 0
  }

  function Bridge(offset: nat, len: nat): seq<Byte> {
    seq<Byte>(len, i requires 0 <= i < len => BridgeByte(offset + i))
  }

  function Zeros(len: nat): seq<Byte> {
    seq<Byte>(len, i => 0)
  }

  function Ones(len: nat): seq<Byte> {
    seq<Byte>(len, i => 0xff)
  }

  const HOST_BRIDGE: Bdf := Bdf(0, 0, 0)

  /** What a read returns, if there is such a device. */
  function ReadBytes(b: State, bdf: Bdf, offset: nat, len: nat): Option<seq<Byte>> {
    if bdf == HOST_BRIDGE then Some(Bridge(offset, len))
    else if bdf !in b.devices then None
    else
      var e := b.devices[bdf];
      match SlotAt(offset)
      case None => Some(ReadCfg(e.device.cfg, offset, len))
      case Some(slot) =>
        match FindBar(e.bars, slot)
        case Nothing => Some(Zeros(len))
        case Half(idx, high) => Some(Lanes(ReadValue(e.bars[idx], high), offset % 4, len))
  }

  /** What it leaves behind: a probe it answered is over. */
  function AfterConfigRead(b: State, bdf: Bdf, offset: nat): State {
    if bdf == HOST_BRIDGE || bdf !in b.devices || SlotAt(offset).None? then b
    else match FindBar(b.devices[bdf].bars, SlotAt(offset).value)
      case Nothing => b
      case Half(idx, high) =>
        b.(devices := WithBar(b.devices, bdf, idx, AfterRead(b.devices[bdf].bars[idx], high)))
  }

  /** A BAR replaced by another of its size: the list and the doorbells go along if it moved. */
  function BarChanged(b: State, bdf: Bdf, idx: nat, bar: Bar, ans: Answers): State
    requires bdf in b.devices && idx in b.devices[bdf].bars
  {
    var from := b.devices[bdf].bars[idx].addr;
    var after := b.(devices := WithBar(b.devices, bdf, idx, bar));
    if bar.addr == from then after
    else
      after.(regions := Rebased(b.regions, bdf, idx, bar.addr),
             bells := if b.registrar then Moved(b.bells, bdf, idx, from, bar.addr, ans, |b.bells.registered|)
                      else b.bells)
  }

  function WithCfg(devices: map<Bdf, Entry>, bdf: Bdf, cfg: seq<Byte>): map<Bdf, Entry>
    requires bdf in devices && |cfg| == SIZE
  {
    devices[bdf := devices[bdf].(device := devices[bdf].device.(cfg := cfg))]
  }

  function AfterConfigWrite(b: State, bdf: Bdf, offset: nat, bytes: seq<Byte>, ans: Answers): State {
    if bdf !in b.devices then b
    else
      var e := b.devices[bdf];
      match SlotAt(offset)
      case None =>
        b.(devices := WithCfg(b.devices, bdf, Written(e.device.cfg, e.device.msixCap, offset, bytes)))
      case Some(slot) =>
        match FindBar(e.bars, slot)
        case Nothing => b
        case Half(idx, high) =>
          if |bytes| < 4 then b
          else
            BarChanged(b, bdf, idx,
              AfterWrite(e.bars[idx], WindowFor(e.bars[idx].kind, b.w64), high, FromLe4(bytes)), ans)
  }

  // ---- the two ways in ----

  datatype Place = Place(bdf: Bdf, reg: nat)

  /** What CONFIG_ADDRESS selects, if its enable bit is set. */
  function CamPlace(addr: nat, lane: nat): Option<Place> {
    if addr / ENABLE % 2 == 0 then None
    else Some(Place(Bdf(addr / 0x1_0000 % 256, addr / 0x800 % 32, addr / 0x100 % 8), addr % 256 / 4 * 4 + lane))
  }

  function EcamPlace(addr: nat): Place
    requires addr >= ECAM_BASE
  {
    var off := addr - ECAM_BASE;
    Place(Bdf(off / 0x10_0000 % 256, off / 0x8000 % 32, off / 0x1000 % 8), off % ECAM_FUNCTION_SIZE)
  }

  predicate InEcam(addr: nat) {
    ECAM_BASE <= addr < ECAM_BASE + ECAM_SIZE
  }

  function OrOnes(r: Option<seq<Byte>>, len: nat): seq<Byte> {
    match r
    case Some(bytes) => bytes
    case None => Ones(len)
  }

  /** `handle_pio_read`: the bytes, if the port is one of the bus's. */
  function PioBytes(b: State, port: nat, len: nat): Option<seq<Byte>> {
    if CONFIG_ADDRESS <= port < CONFIG_ADDRESS + 4 then Some(Lanes(b.configAddr, port - CONFIG_ADDRESS, len))
    else if CONFIG_DATA <= port < CONFIG_DATA + 4 then
      match CamPlace(b.configAddr, port - CONFIG_DATA)
      case None => Some(Ones(len))
      case Some(p) => Some(OrOnes(ReadBytes(b, p.bdf, p.reg, len), len))
    else None
  }

  function AfterPioRead(b: State, port: nat): State {
    if CONFIG_DATA <= port < CONFIG_DATA + 4 then
      match CamPlace(b.configAddr, port - CONFIG_DATA)
      case None => b
      case Some(p) => AfterConfigRead(b, p.bdf, p.reg)
    else b
  }

  /** `handle_pio_write` */
  function AfterPioWrite(b: State, port: nat, bytes: seq<Byte>, ans: Answers): State {
    if CONFIG_ADDRESS <= port < CONFIG_ADDRESS + 4 then
      if |bytes| == 4 then b.(configAddr := FromLe4(bytes)) else b
    else if CONFIG_DATA <= port < CONFIG_DATA + 4 then
      match CamPlace(b.configAddr, port - CONFIG_DATA)
      case None => b
      case Some(p) => AfterConfigWrite(b, p.bdf, p.reg, bytes, ans)
    else b
  }

  /** The configuration side of `handle_mmio_read`. Registers past the first 256 bytes read as zero. */
  function EcamBytes(b: State, addr: nat, len: nat): seq<Byte>
    requires InEcam(addr)
  {
    var p := EcamPlace(addr);
    if p.reg >= SIZE then Zeros(len) else OrOnes(ReadBytes(b, p.bdf, p.reg, len), len)
  }

  function AfterEcamRead(b: State, addr: nat): State
    requires InEcam(addr)
  {
    var p := EcamPlace(addr);
    if p.reg >= SIZE then b else AfterConfigRead(b, p.bdf, p.reg)
  }

  function AfterEcamWrite(b: State, addr: nat, bytes: seq<Byte>, ans: Answers): State
    requires InEcam(addr)
  {
    var p := EcamPlace(addr);
    if p.reg >= SIZE then b else AfterConfigWrite(b, p.bdf, p.reg, bytes, ans)
  }

  // ---- what every step keeps ----

  /** Devices are at the addresses handed out, and their BARs aligned and wholly inside their window. */
  ghost predicate EntriesOk(devices: map<Bdf, Entry>, w64: Window, nextDev: nat) {
    forall bdf :: bdf in devices ==>
      bdf.bus == 0 && bdf.func == 0 && 1 <= bdf.dev < nextDev && BarsOk(devices[bdf].bars, w64)
  }

  /** And the list of regions is exactly those BARs, where they are. */
  ghost predicate Ok(b: State) {
    && Roomy(b.w64) && 1 <= b.nextDev <= 32
    && EntriesOk(b.devices, b.w64, b.nextDev) && Indexed(b.devices, b.regions)
  }

  lemma GrantSound(b: State, d: Device)
    requires Ok(b) && Grant(b, d).Granted?
    ensures Sound(Grant(b, d).bars, b.w64, MarksOf(b.regions, b.w64))
  {
    HighWaterIsAbove(b.regions, WINDOW32, |b.regions|, 0);
    HighWaterIsAbove(b.regions, b.w64, |b.regions|, 0);
    GrantIsSound(d.wants, b.w64, MarksOf(b.regions, b.w64));
  }

  lemma AddKeepsOk(b: State, d: Device, ans: Answers)
    requires Ok(b)
    ensures Ok(Added(b, d, ans))
  {
    if Fits(b, d) {
      GrantSound(b, d);
      var bdf := Bdf(0, b.nextDev, 0);
      assert bdf !in b.devices;
      AddIndexed(b.devices, b.regions, bdf, Entry(d, Grant(b, d).bars));
    }
  }

  /** A BAR may be replaced by another one as good. */
  lemma ReplaceOk(devices: map<Bdf, Entry>, w64: Window, nextDev: nat, bdf: Bdf, idx: nat, bar: Bar)
    requires EntriesOk(devices, w64, nextDev) && bdf in devices && idx in devices[bdf].bars
    requires Good(bar, w64) && bar.kind == devices[bdf].bars[idx].kind
    ensures EntriesOk(WithBar(devices, bdf, idx, bar), w64, nextDev)
  {
    assert BarsOk(devices[bdf].bars, w64);
    assert BarsOk(devices[bdf].bars[idx := bar], w64);
  }

  lemma SameBarIndexed(devices: map<Bdf, Entry>, regions: seq<Region>, bdf: Bdf, idx: nat, bar: Bar)
    requires Indexed(devices, regions) && bdf in devices && idx in devices[bdf].bars
    requires bar.addr == devices[bdf].bars[idx].addr && bar.size == devices[bdf].bars[idx].size
    ensures Indexed(WithBar(devices, bdf, idx, bar), regions)
  {
    StillIndexed(devices, WithBar(devices, bdf, idx, bar), regions);
  }

  lemma BarChangeKeepsOk(b: State, bdf: Bdf, idx: nat, bar: Bar, ans: Answers)
    requires Ok(b) && bdf in b.devices && idx in b.devices[bdf].bars
    requires Good(bar, b.w64) && bar.kind == b.devices[bdf].bars[idx].kind && bar.size == b.devices[bdf].bars[idx].size
    ensures Ok(BarChanged(b, bdf, idx, bar, ans))
  {
    ReplaceOk(b.devices, b.w64, b.nextDev, bdf, idx, bar);
    if bar.addr == b.devices[bdf].bars[idx].addr {
      SameBarIndexed(b.devices, b.regions, bdf, idx, bar);
    } else {
      MoveIndexed(b.devices, b.regions, bdf, idx, bar);
    }
  }

  lemma ConfigReadKeepsOk(b: State, bdf: Bdf, offset: nat)
    requires Ok(b)
    ensures Ok(AfterConfigRead(b, bdf, offset))
  {
    if bdf in b.devices && SlotAt(offset).Some? {
      var f := FindBar(b.devices[bdf].bars, SlotAt(offset).value);
      if f.Half? {
        var bar := AfterRead(b.devices[bdf].bars[f.idx], f.high);
        assert Good(b.devices[bdf].bars[f.idx], b.w64);
        ReplaceOk(b.devices, b.w64, b.nextDev, bdf, f.idx, bar);
        SameBarIndexed(b.devices, b.regions, bdf, f.idx, bar);
      }
    }
  }

  lemma WriteIsGood(bar: Bar, w64: Window, high: bool, raw: nat)
    requires Good(bar, w64) && Roomy(w64)
    ensures var after := AfterWrite(bar, WindowFor(bar.kind, w64), high, raw);
      Good(after, w64) && after.kind == bar.kind && after.size == bar.size
  {
    Window32IsRoomy();
    WriteKeepsPlaced(bar, WindowFor(bar.kind, w64), high, raw);
  }

  lemma CfgWriteKeepsOk(b: State, bdf: Bdf, cfg: seq<Byte>)
    requires Ok(b) && bdf in b.devices && |cfg| == SIZE
    ensures Ok(b.(devices := WithCfg(b.devices, bdf, cfg)))
  {
    StillIndexed(b.devices, WithCfg(b.devices, bdf, cfg), b.regions);
  }

  lemma ConfigWriteKeepsOk(b: State, bdf: Bdf, offset: nat, bytes: seq<Byte>, ans: Answers)
    requires Ok(b)
    ensures Ok(AfterConfigWrite(b, bdf, offset, bytes, ans))
  {
    if bdf in b.devices {
      var e := b.devices[bdf];
      if SlotAt(offset).None? {
        CfgWriteKeepsOk(b, bdf, Written(e.device.cfg, e.device.msixCap, offset, bytes));
      } else {
        var f := FindBar(e.bars, SlotAt(offset).value);
        if f.Half? && |bytes| >= 4 {
          assert Good(e.bars[f.idx], b.w64);
          WriteIsGood(e.bars[f.idx], b.w64, f.high, FromLe4(bytes));
          BarChangeKeepsOk(b, bdf, f.idx,
            AfterWrite(e.bars[f.idx], WindowFor(e.bars[f.idx].kind, b.w64), f.high, FromLe4(bytes)), ans);
        }
      }
    }
  }

  // ---- whole runs ----

  /** Everything that can happen to the bus, with what the kernel answers while it does. */
  datatype Op =
    | AddDevice(device: Device, ans: Answers)
    | PioWrite(port: nat, bytes: seq<Byte>, ans: Answers)
    | PioRead(port: nat)
    | EcamWrite(addr: nat, bytes: seq<Byte>, ans: Answers)
    | EcamRead(addr: nat)

  function After(b: State, op: Op): State {
    match op
    case AddDevice(d, ans) => Added(b, d, ans)
    case PioWrite(port, bytes, ans) => AfterPioWrite(b, port, bytes, ans)
    case PioRead(port) => AfterPioRead(b, port)
    case EcamWrite(addr, bytes, ans) => if InEcam(addr) then AfterEcamWrite(b, addr, bytes, ans) else b
    case EcamRead(addr) => if InEcam(addr) then AfterEcamRead(b, addr) else b
  }

  function AfterAll(b: State, ops: seq<Op>, n: nat): State
    requires n <= |ops|
  {
    if n == 0 then b else After(AfterAll(b, ops, n - 1), ops[n - 1])
  }

  /** The configuration access an operation comes down to. */
  datatype Access = NoAccess | Reads(at: Place) | Writes(at: Place, bytes: seq<Byte>, ans: Answers)

  function AccessOf(b: State, op: Op): Access {
    match op
    case AddDevice(_, _) => NoAccess
    case PioWrite(port, bytes, ans) =>
      if CONFIG_DATA <= port < CONFIG_DATA + 4 && CamPlace(b.configAddr, port - CONFIG_DATA).Some?
      then Writes(CamPlace(b.configAddr, port - CONFIG_DATA).value, bytes, ans) else NoAccess
    case PioRead(port) =>
      if CONFIG_DATA <= port < CONFIG_DATA + 4 && CamPlace(b.configAddr, port - CONFIG_DATA).Some?
      then Reads(CamPlace(b.configAddr, port - CONFIG_DATA).value) else NoAccess
    case EcamWrite(addr, bytes, ans) =>
      if InEcam(addr) && EcamPlace(addr).reg < SIZE then Writes(EcamPlace(addr), bytes, ans) else NoAccess
    case EcamRead(addr) => if InEcam(addr) && EcamPlace(addr).reg < SIZE then Reads(EcamPlace(addr)) else NoAccess
  }

  lemma PioIsAccess(b: State, port: nat, bytes: seq<Byte>, ans: Answers)
    ensures match AccessOf(b, PioRead(port))
      case NoAccess => AfterPioRead(b, port) == b
      case Reads(p) => AfterPioRead(b, port) == AfterConfigRead(b, p.bdf, p.reg)
      case Writes(_, _, _) => false
    ensures match AccessOf(b, PioWrite(port, bytes, ans))
      case NoAccess =>
        var after := AfterPioWrite(b, port, bytes, ans);
        after == b.(configAddr := after.configAddr)
      case Reads(_) => false
      case Writes(p, bs, a) =>
        && bs == bytes && a == ans
        && AfterPioWrite(b, port, bytes, ans) == AfterConfigWrite(b, p.bdf, p.reg, bytes, ans)
  {
  }

  /** Either way in, an operation adds a device, reads or writes one place, or sets CONFIG_ADDRESS. */
  lemma StepIsAccess(b: State, op: Op)
    requires !op.AddDevice?
    ensures match AccessOf(b, op)
      case NoAccess => After(b, op) == b.(configAddr := After(b, op).configAddr)
      case Reads(p) => After(b, op) == AfterConfigRead(b, p.bdf, p.reg)
      case Writes(p, bytes, ans) => After(b, op) == AfterConfigWrite(b, p.bdf, p.reg, bytes, ans)
  {
    match op
    case PioRead(port) => PioIsAccess(b, port, [], Answers((a, f) => false, (a, f) => false));
    case PioWrite(port, bytes, ans) => PioIsAccess(b, port, bytes, ans);
    case _ =>
  }

  lemma StepKeepsOk(b: State, op: Op)
    requires Ok(b)
    ensures Ok(After(b, op))
  {
    if op.AddDevice? {
      AddKeepsOk(b, op.device, op.ans);
    } else {
      StepIsAccess(b, op);
      match AccessOf(b, op) {
        case NoAccess =>
        case Reads(p) => ConfigReadKeepsOk(b, p.bdf, p.reg);
        case Writes(p, bytes, ans) => ConfigWriteKeepsOk(b, p.bdf, p.reg, bytes, ans);
      }
    }
  }

  lemma EcamWriteKeepsOk(b: State, addr: nat, bytes: seq<Byte>, ans: Answers)
    requires Ok(b) && InEcam(addr)
    ensures Ok(AfterEcamWrite(b, addr, bytes, ans))
  {
    var p := EcamPlace(addr);
    if p.reg < SIZE {
      ConfigWriteKeepsOk(b, p.bdf, p.reg, bytes, ans);
    }
  }

  lemma EcamReadKeepsOk(b: State, addr: nat)
    requires Ok(b) && InEcam(addr)
    ensures Ok(AfterEcamRead(b, addr))
  {
    var p := EcamPlace(addr);
    if p.reg < SIZE {
      ConfigReadKeepsOk(b, p.bdf, p.reg);
    }
  }

  /** After any sequence of additions and guest accesses. */
  lemma {:induction false} RunKeepsOk(w64: Window, registrar: bool, ops: seq<Op>, n: nat)
    requires Roomy(w64) && n <= |ops|
    ensures Ok(AfterAll(Fresh(w64, registrar), ops, n))
  {
    if n > 0 {
      RunKeepsOk(w64, registrar, ops, n - 1);
      StepKeepsOk(AfterAll(Fresh(w64, registrar), ops, n - 1), ops[n - 1]);
    }
  }

  /** On every processor, then, the list of regions is exactly the BARs. */
  lemma BusInvariant(physBits: nat, registrar: bool, ops: seq<Op>)
    ensures Ok(AfterAll(Fresh(Window64(physBits), registrar), ops, |ops|))
  {
    Window64IsRoomy(physBits);
    RunKeepsOk(Window64(physBits), registrar, ops, |ops|);
  }

  /** However the guest moved the others around, a new device's registers overlap nothing mapped at
      the time, nor each other, when the two windows are apart. */
  lemma NewDeviceIsApart(b: State, d: Device, i: nat, k: nat, j: nat)
    requires Ok(b) && WINDOW32.end <= b.w64.start && Fits(b, d) && i in Grant(b, d).bars
    ensures var bar := Grant(b, d).bars[i];
      && (k < |b.regions| ==> RangesApart(bar.addr, bar.size, b.regions[k].base, b.regions[k].size))
      && (j in Grant(b, d).bars && j != i ==>
            RangesApart(bar.addr, bar.size, Grant(b, d).bars[j].addr, Grant(b, d).bars[j].size))
  {
    GrantSound(b, d);
    var bars := Grant(b, d).bars;
    assert Good(bars[i], b.w64);
    if k < |b.regions| {
      NewBarIsApart(b.devices, b.regions, b.w64, bars[i], k);
    }
    if j in bars {
      assert Good(bars[j], b.w64);
    }
  }

  /** Where they are not apart, which is with 32 address bits or fewer, the first device with a
      register of each kind gets both at the same address. */
  lemma NarrowProcessorOverlaps(physBits: nat, wants: seq<Want>)
    requires physBits <= 32 && OneOfEach(wants)
    ensures var r := Allocate(wants, Window64(physBits), 0, MarksOf([], Window64(physBits)), map[]);
      r.Granted? && 0 in r.bars && 1 in r.bars && r.bars[0].addr == r.bars[1].addr
  {
    KnownPowers();
    BothPlaced(wants, Window64(physBits));
  }

  // ---- a register as the guest sees it ----

  function RegisterAt(slot: nat): nat {
    FIRST_BAR + 4 * slot
  }

  /** The register of each half leads to the BAR that owns it. */
  lemma FindsHalf(bars: map<nat, Bar>, w64: Window, idx: nat, high: bool)
    requires BarsOk(bars, w64) && idx in bars && (high ==> bars[idx].kind.Mem64?)
    ensures var slot := if high then idx + 1 else idx;
      SlotAt(RegisterAt(slot)) == Some(slot) && FindBar(bars, slot) == Half(idx, high)
  {
  }

  lemma LanesRoundTrip(v: nat)
    requires v < G
    ensures |Lanes(v, 0, 4)| == 4 && FromLe4(Lanes(v, 0, 4)) == v
  {
    assert Lanes(v, 0, 4) == Le32(v);
    Le4RoundTrip(v);
  }

  lemma RegisterIsAligned(slot: nat)
    ensures RegisterAt(slot) % 4 == 0
  {
  }

  lemma ReadReachesHalf(b: State, bdf: Bdf, idx: nat, high: bool, offset: nat)
    requires Ok(b) && bdf in b.devices && idx in b.devices[bdf].bars && (high ==> b.devices[bdf].bars[idx].kind.Mem64?)
    requires offset == RegisterAt(if high then idx + 1 else idx)
    ensures ReadBytes(b, bdf, offset, 4) == Some(Lanes(ReadValue(b.devices[bdf].bars[idx], high), 0, 4))
  {
    FindsHalf(b.devices[bdf].bars, b.w64, idx, high);
    RegisterIsAligned(if high then idx + 1 else idx);
    assert bdf != HOST_BRIDGE;
  }

  /** A four-byte read of either register gives that half of the BAR. */
  lemma GuestReadsHalf(b: State, bdf: Bdf, idx: nat, high: bool)
    requires Ok(b) && bdf in b.devices && idx in b.devices[bdf].bars && (high ==> b.devices[bdf].bars[idx].kind.Mem64?)
    requires ReadValue(b.devices[bdf].bars[idx], high) < G
    ensures var r := ReadBytes(b, bdf, RegisterAt(if high then idx + 1 else idx), 4);
      && r.Some? && |r.value| == 4
      && FromLe4(r.value) == ReadValue(b.devices[bdf].bars[idx], high)
  {
    ReadReachesHalf(b, bdf, idx, high, RegisterAt(if high then idx + 1 else idx));
    LanesRoundTrip(ReadValue(b.devices[bdf].bars[idx], high));
  }

  lemma WriteReachesHalf(b: State, bdf: Bdf, idx: nat, high: bool, raw: nat, ans: Answers)
    requires Ok(b) && bdf in b.devices && idx in b.devices[bdf].bars && (high ==> b.devices[bdf].bars[idx].kind.Mem64?)
    requires raw < G
    ensures var bar := b.devices[bdf].bars[idx];
      AfterConfigWrite(b, bdf, RegisterAt(if high then idx + 1 else idx), Le32(raw), ans)
        == BarChanged(b, bdf, idx, AfterWrite(bar, WindowFor(bar.kind, b.w64), high, raw), ans)
  {
    FindsHalf(b.devices[bdf].bars, b.w64, idx, high);
    Le4RoundTrip(raw);
  }

  /** A four-byte write of either register is a write of that half. */
  lemma GuestWritesHalf(b: State, bdf: Bdf, idx: nat, high: bool, raw: nat, ans: Answers)
    requires Ok(b) && bdf in b.devices && idx in b.devices[bdf].bars && (high ==> b.devices[bdf].bars[idx].kind.Mem64?)
    requires raw < G
    ensures var bar := b.devices[bdf].bars[idx];
      var after := AfterConfigWrite(b, bdf, RegisterAt(if high then idx + 1 else idx), Le32(raw), ans);
      && Ok(after) && after.w64 == b.w64 && bdf in after.devices && idx in after.devices[bdf].bars
      && after.devices[bdf].bars[idx] == AfterWrite(bar, WindowFor(bar.kind, b.w64), high, raw)
  {
    WriteReachesHalf(b, bdf, idx, high, raw, ans);
    ConfigWriteKeepsOk(b, bdf, RegisterAt(if high then idx + 1 else idx), Le32(raw), ans);
  }

  /** Where two writes of the halves leave a BAR. */
  lemma GuestWritesBoth(b: State, bdf: Bdf, idx: nat, high: bool, raw: nat, other: nat, ans: Answers)
    requires Ok(b) && bdf in b.devices && idx in b.devices[bdf].bars && b.devices[bdf].bars[idx].kind.Mem64?
    requires raw < G && other < G
    ensures var first, second := if high then idx + 1 else idx, if high then idx else idx + 1;
      var once := AfterConfigWrite(b, bdf, RegisterAt(first), Le32(raw), ans);
      var after := AfterConfigWrite(once, bdf, RegisterAt(second), Le32(other), ans);
      && Ok(after) && bdf in after.devices && idx in after.devices[bdf].bars
      && after.devices[bdf].bars[idx]
         == AfterWrite(AfterWrite(b.devices[bdf].bars[idx], b.w64, high, raw), b.w64, !high, other)
  {
    GuestWritesHalf(b, bdf, idx, high, raw, ans);
    var once := AfterConfigWrite(b, bdf, RegisterAt(if high then idx + 1 else idx), Le32(raw), ans);
    GuestWritesHalf(once, bdf, idx, !high, other, ans);
  }

  /** Two configuration writes program a 64-bit BAR with any aligned address in its window, in
      either order, and the bus is still in order. */
  lemma GuestProgramsBar(b: State, bdf: Bdf, idx: nat, t: nat, lowFirst: bool, ans: Answers)
    requires Ok(b) && Rectangular(b.w64) && bdf in b.devices && idx in b.devices[bdf].bars
    requires b.devices[bdf].bars[idx].kind.Mem64? && Bars.Target(b.devices[bdf].bars[idx], b.w64, t)
    ensures var lo, hi := RegisterAt(idx), RegisterAt(idx + 1);
      var after :=
        if lowFirst then AfterConfigWrite(AfterConfigWrite(b, bdf, lo, Le32(t % G), ans), bdf, hi, Le32(t / G), ans)
        else AfterConfigWrite(AfterConfigWrite(b, bdf, hi, Le32(t / G), ans), bdf, lo, Le32(t % G), ans);
      && Ok(after) && bdf in after.devices && idx in after.devices[bdf].bars
      && after.devices[bdf].bars[idx].addr == t
  {
    EitherOrderArrives(b.devices[bdf].bars[idx], b.w64, t);
    if lowFirst {
      GuestWritesBoth(b, bdf, idx, false, t % G, t / G, ans);
    } else {
      GuestWritesBoth(b, bdf, idx, true, t / G, t % G, ans);
    }
  }

  // ---- sizing as the guest does it ----

  /** The bus with one BAR replaced, and nothing moved. */
  function WithOneBar(b: State, bdf: Bdf, idx: nat, bar: Bar): State
    requires bdf in b.devices
  {
    b.(devices := WithBar(b.devices, bdf, idx, bar))
  }

  lemma WithOneBarTwice(b: State, bdf: Bdf, idx: nat, bar: Bar, last: Bar)
    requires bdf in b.devices
    ensures WithOneBar(WithOneBar(b, bdf, idx, bar), bdf, idx, last) == WithOneBar(b, bdf, idx, last)
  {
    var once := b.devices[bdf].bars[idx := bar];
    assert once[idx := last] == b.devices[bdf].bars[idx := last];
    assert WithBar(WithBar(b.devices, bdf, idx, bar), bdf, idx, last) == WithBar(b.devices, bdf, idx, last);
  }

  lemma WithSameBar(b: State, bdf: Bdf, idx: nat)
    requires bdf in b.devices && idx in b.devices[bdf].bars
    ensures WithOneBar(b, bdf, idx, b.devices[bdf].bars[idx]) == b
  {
    var bars := b.devices[bdf].bars;
    assert bars[idx := bars[idx]] == bars;
    assert WithBar(b.devices, bdf, idx, bars[idx]) == b.devices;
  }

  function Probing(bar: Bar, high: bool): Bar {
    if high then bar.(probingHi := true) else bar.(probingLo := true)
  }

  /** All ones written to a register only mark that half. */
  lemma GuestProbes(b: State, bdf: Bdf, idx: nat, high: bool, ans: Answers)
    requires Ok(b) && bdf in b.devices && idx in b.devices[bdf].bars && (high ==> b.devices[bdf].bars[idx].kind.Mem64?)
    ensures AfterConfigWrite(b, bdf, RegisterAt(if high then idx + 1 else idx), Le32(ONES), ans)
         == WithOneBar(b, bdf, idx, Probing(b.devices[bdf].bars[idx], high))
    ensures Ok(WithOneBar(b, bdf, idx, Probing(b.devices[bdf].bars[idx], high)))
  {
    WriteReachesHalf(b, bdf, idx, high, ONES, ans);
    ConfigWriteKeepsOk(b, bdf, RegisterAt(if high then idx + 1 else idx), Le32(ONES), ans);
  }

  /** Reading a marked half gives its part of the mask, and takes the mark off. */
  lemma GuestReadsMask(b: State, bdf: Bdf, idx: nat, high: bool)
    requires Ok(b) && bdf in b.devices && idx in b.devices[bdf].bars && (high ==> b.devices[bdf].bars[idx].kind.Mem64?)
    requires Probing(b.devices[bdf].bars[idx], high) == b.devices[bdf].bars[idx]
    ensures var offset, bar := RegisterAt(if high then idx + 1 else idx), b.devices[bdf].bars[idx];
      && GuestReads(b, bdf, offset) == Some(ReadValue(bar, high))
      && AfterConfigRead(b, bdf, offset) == WithOneBar(b, bdf, idx, AfterRead(bar, high))
      && Ok(AfterConfigRead(b, bdf, offset))
  {
    var offset := RegisterAt(if high then idx + 1 else idx);
    GuestReadsHalf(b, bdf, idx, high);
    FindsHalf(b.devices[bdf].bars, b.w64, idx, high);
    ConfigReadKeepsOk(b, bdf, offset);
  }

  /** A four-byte read, as a number. */
  function GuestReads(b: State, bdf: Bdf, offset: nat): Option<nat> {
    match ReadBytes(b, bdf, offset, 4)
    case Some(bytes) => if |bytes| >= 4 then Some(FromLe4(bytes)) else None
    case None => None
  }

  /** Sizing a 32-bit BAR through configuration space: what the guest makes of the answer is the size,
      if and only if that is at least 16, and the bus is as it was. */
  lemma GuestSizesBar32(b: State, bdf: Bdf, idx: nat, ans: Answers)
    requires Ok(b) && bdf in b.devices && idx in b.devices[bdf].bars
    requires var bar := b.devices[bdf].bars[idx]; bar.kind.Mem32? && !bar.probingLo && !bar.probingHi
    ensures var size, lo := b.devices[bdf].bars[idx].size, RegisterAt(idx);
      var asked := AfterConfigWrite(b, bdf, lo, Le32(ONES), ans);
      var answer := GuestReads(asked, bdf, lo);
      && AfterConfigRead(asked, bdf, lo) == b
      && answer.Some? && Decoded32(answer.value) == AtLeast16(size)
      && (Decoded32(answer.value) == size <==> size >= 16)
  {
    var bar := b.devices[bdf].bars[idx];
    assert Good(bar, b.w64);
    GuestProbes(b, bdf, idx, false, ans);
    var asked := WithOneBar(b, bdf, idx, Probing(bar, false));
    GuestReadsMask(asked, bdf, idx, false);
    WithOneBarTwice(b, bdf, idx, Probing(bar, false), bar);
    WithSameBar(b, bdf, idx);
    SizingDecodes(bar, WINDOW32);
  }

  /** And a 64-bit one, both halves marked before either is read. */
  lemma GuestSizesBar64(b: State, bdf: Bdf, idx: nat, ans: Answers)
    requires Ok(b) && bdf in b.devices && idx in b.devices[bdf].bars
    requires var bar := b.devices[bdf].bars[idx]; bar.kind.Mem64? && !bar.probingLo && !bar.probingHi
    ensures var size, lo, hi := b.devices[bdf].bars[idx].size, RegisterAt(idx), RegisterAt(idx + 1);
      var asked := AfterConfigWrite(AfterConfigWrite(b, bdf, lo, Le32(ONES), ans), bdf, hi, Le32(ONES), ans);
      var half := AfterConfigRead(asked, bdf, lo);
      var low, high := GuestReads(asked, bdf, lo), GuestReads(half, bdf, hi);
      && AfterConfigRead(half, bdf, hi) == b
      && low.Some? && high.Some? && Decoded64(low.value, high.value) == AtLeast16(size)
      && (Decoded64(low.value, high.value) == size <==> size >= 16)
  {
    var bar := b.devices[bdf].bars[idx];
    assert Good(bar, b.w64);
    var one, both := Probing(bar, false), Probing(Probing(bar, false), true);
    GuestProbes(b, bdf, idx, false, ans);
    var first := WithOneBar(b, bdf, idx, one);
    GuestProbes(first, bdf, idx, true, ans);
    WithOneBarTwice(b, bdf, idx, one, both);
    var asked := WithOneBar(b, bdf, idx, both);
    GuestReadsMask(asked, bdf, idx, false);
    WithOneBarTwice(b, bdf, idx, both, Probing(bar, true));
    var half := WithOneBar(b, bdf, idx, Probing(bar, true));
    GuestReadsMask(half, bdf, idx, true);
    WithOneBarTwice(b, bdf, idx, Probing(bar, true), bar);
    WithSameBar(b, bdf, idx);
    SizingDecodes(bar, b.w64);
  }

  // ---- the two ways in agree ----

  function CamAddress(dev: nat, func: nat, reg: nat): nat {
    ENABLE + dev * 0x800 + func * 0x100 + reg / 4 * 4
  }

  function EcamAddress(dev: nat, func: nat, reg: nat): nat {
    ECAM_BASE + dev * 0x8000 + func * 0x1000 + reg
  }

  lemma Le4RoundTrip(v: nat)
    requires v < G
    ensures FromLe4(Le32(v)) == v
  {
    var q1 := v / 0x100;
    var q2 := q1 / 0x100;
    var q3 := q2 / 0x100;
    assert v / 0x1_0000 == q2 && v / 0x100_0000 == q3 < 0x100;
    assert v == v % 0x100 + 0x100 * q1 && q1 == q1 % 0x100 + 0x100 * q2 && q2 == q2 % 0x100 + 0x100 * q3;
  }

  lemma Digits(q: nat, r: nat, m: nat)
    requires r < m
    ensures (q * m + r) / m == q && (q * m + r) % m == r
  {
    DivModUnique(q * m + r, q, r, m);
  }

  lemma CamDecodes(dev: nat, func: nat, reg: nat)
    requires dev < 32 && func < 8 && reg < SIZE
    ensures CamAddress(dev, func, reg) < G
    ensures CamPlace(CamAddress(dev, func, reg), reg % 4) == Some(Place(Bdf(0, dev, func), reg))
  {
    var a, low := CamAddress(dev, func, reg), reg / 4 * 4;
    Digits(0x80_0000 + dev * 8 + func, low, 0x100);
    Digits(0x10_0000 + dev, func * 0x100 + low, 0x800);
    Digits(0x8000, dev * 0x800 + func * 0x100 + low, 0x1_0000);
    assert a / ENABLE == 1;
  }

  lemma EcamDecodes(dev: nat, func: nat, reg: nat)
    requires dev < 32 && func < 8 && reg < SIZE
    ensures InEcam(EcamAddress(dev, func, reg))
    ensures EcamPlace(EcamAddress(dev, func, reg)) == Place(Bdf(0, dev, func), reg)
  {
    var off := dev * 0x8000 + func * 0x1000 + reg;
    assert off / 0x1000 == dev * 8 + func;
  }

  lemma ConfigAddrIsAside(b: State, addr: nat, bdf: Bdf, reg: nat, len: nat, bytes: seq<Byte>, ans: Answers)
    ensures var c := b.(configAddr := addr);
      && ReadBytes(c, bdf, reg, len) == ReadBytes(b, bdf, reg, len)
      && AfterConfigRead(c, bdf, reg) == AfterConfigRead(b, bdf, reg).(configAddr := addr)
      && AfterConfigWrite(c, bdf, reg, bytes, ans) == AfterConfigWrite(b, bdf, reg, bytes, ans).(configAddr := addr)
  {
  }

  /** Selecting a register through the ports and then reading it, and reading it through the window,
      give the same bytes and leave the same bus, but for CONFIG_ADDRESS. */
  lemma CamReadsAsEcam(b: State, dev: nat, func: nat, reg: nat, len: nat, ans: Answers)
    requires dev < 32 && func < 8 && reg < SIZE
    ensures InEcam(EcamAddress(dev, func, reg))
    ensures var selected := AfterPioWrite(b, CONFIG_ADDRESS, Le32(CamAddress(dev, func, reg)), ans);
      && PioBytes(selected, CONFIG_DATA + reg % 4, len) == Some(EcamBytes(b, EcamAddress(dev, func, reg), len))
      && AfterPioRead(selected, CONFIG_DATA + reg % 4)
         == AfterEcamRead(b, EcamAddress(dev, func, reg)).(configAddr := CamAddress(dev, func, reg))
  {
    CamDecodes(dev, func, reg);
    EcamDecodes(dev, func, reg);
    Le4RoundTrip(CamAddress(dev, func, reg));
    ConfigAddrIsAside(b, CamAddress(dev, func, reg), Bdf(0, dev, func), reg, len, [], ans);
  }

  /** And so does writing it. */
  lemma CamWritesAsEcam(b: State, dev: nat, func: nat, reg: nat, bytes: seq<Byte>, ans: Answers)
    requires dev < 32 && func < 8 && reg < SIZE
    ensures InEcam(EcamAddress(dev, func, reg))
    ensures var selected := AfterPioWrite(b, CONFIG_ADDRESS, Le32(CamAddress(dev, func, reg)), ans);
      AfterPioWrite(selected, CONFIG_DATA + reg % 4, bytes, ans)
        == AfterEcamWrite(b, EcamAddress(dev, func, reg), bytes, ans).(configAddr := CamAddress(dev, func, reg))
  {
    CamDecodes(dev, func, reg);
    EcamDecodes(dev, func, reg);
    Le4RoundTrip(CamAddress(dev, func, reg));
    ConfigAddrIsAside(b, CamAddress(dev, func, reg), Bdf(0, dev, func), reg, 0, bytes, ans);
  }
}
