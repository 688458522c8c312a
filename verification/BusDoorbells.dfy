/** Doorbells over whole runs of the bus: exactly which answers of the kernel keep them with their BARs. */
module BusDoorbells {
  import opened Segments
  import opened Layout
  import opened Bars
  import opened BarAlloc
  import opened PciTypes
  import opened Doorbells
  import opened BusIndex
  import opened CapList
  import opened Bus

  // ---- which BAR an operation moves ----

  datatype Shift = Stays | Shift(bdf: Bdf, idx: nat, to: nat)

  function ShiftOf(b: State, a: Access): (r: Shift)
    ensures r.Shift? ==> a.Writes? && r.bdf in b.devices && r.idx in b.devices[r.bdf].bars
  {
    if !a.Writes? || a.at.bdf !in b.devices || SlotAt(a.at.reg).None? || |a.bytes| < 4 then Stays
    else
      var bars := b.devices[a.at.bdf].bars;
      match FindBar(bars, SlotAt(a.at.reg).value)
      case Nothing => Stays
      case Half(idx, high) =>
        var to := AfterWrite(bars[idx], WindowFor(bars[idx].kind, b.w64), high, FromLe4(a.bytes)).addr;
        if to == bars[idx].addr then Stays else Shift(a.at.bdf, idx, to)
  }

  /** The kernel grants the calls an operation makes while moving a BAR. Whether it grants those for a
      device just added does not matter. */
  ghost predicate Granted(b: State, op: Op) {
    AccessGranted(b, AccessOf(b, op))
  }

  ghost predicate AccessGranted(b: State, a: Access) {
    match ShiftOf(b, a)
    case Stays => true
    case Shift(bdf, idx, to) => CallsGranted(b.bells, bdf, idx, b.devices[bdf].bars[idx].addr, to, a.ans)
  }

  // ---- doorbells inside their BARs ----

  ghost predicate DoorsFit(devices: map<Bdf, Entry>) {
    forall bdf, k :: bdf in devices && k in devices[bdf].bars ==> DoorsInside(devices[bdf], k)
  }

  /** A device declares its doorbells inside the registers it asks for. */
  ghost predicate Declared(op: Op) {
    op.AddDevice? ==>
      forall d :: d in op.device.doors && d.bar < SLOTS ==> d.offset < op.device.wants[d.bar].size
  }

  /** The same devices with the same registers, whatever became of the rest. */
  ghost predicate SameShape(devices: map<Bdf, Entry>, after: map<Bdf, Entry>) {
    && devices.Keys == after.Keys
    && (forall b :: b in devices ==>
          && after[b].device.doors == devices[b].device.doors && after[b].bars.Keys == devices[b].bars.Keys
          && forall k :: k in devices[b].bars ==> after[b].bars[k].size == devices[b].bars[k].size)
  }

  ghost predicate SameBases(devices: map<Bdf, Entry>, after: map<Bdf, Entry>) {
    && SameShape(devices, after)
    && forall b, k :: b in devices && k in devices[b].bars ==> after[b].bars[k].addr == devices[b].bars[k].addr
  }

  lemma DoorsFitSame(devices: map<Bdf, Entry>, after: map<Bdf, Entry>)
    requires DoorsFit(devices) && SameShape(devices, after)
    ensures DoorsFit(after)
  {
    forall bdf, k | bdf in after && k in after[bdf].bars ensures DoorsInside(after[bdf], k) {
      assert DoorsInside(devices[bdf], k);
    }
  }

  lemma InPlaceSame(devices: map<Bdf, Entry>, after: map<Bdf, Entry>, e: Bell)
    requires InPlace(devices, e) && e.bdf in after && after[e.bdf].device.doors == devices[e.bdf].device.doors
    requires e.bar in after[e.bdf].bars && after[e.bdf].bars[e.bar].addr == devices[e.bdf].bars[e.bar].addr
    ensures InPlace(after, e)
  {
    var d :| d in devices[e.bdf].device.doors && d.bar == e.bar && d.fd == e.fd
      && e.addr == devices[e.bdf].bars[e.bar].addr + d.offset;
    assert d in after[e.bdf].device.doors;
  }

  lemma InStepSame(devices: map<Bdf, Entry>, after: map<Bdf, Entry>, bells: Bells)
    requires SameBases(devices, after)
    ensures InStep(devices, bells) <==> InStep(after, bells)
  {
    forall i | 0 <= i < |bells.registered|
      ensures InPlace(devices, bells.registered[i]) <==> InPlace(after, bells.registered[i])
    {
      var e := bells.registered[i];
      if InPlace(devices, e) {
        InPlaceSame(devices, after, e);
      }
      if InPlace(after, e) {
        InPlaceSame(after, devices, e);
      }
    }
  }

  // ---- additions and reads ----

  lemma AddKeepsStep(b: State, d: Device, ans: Answers)
    requires Ok(b) && InStep(b.devices, b.bells) && b.registrar
    ensures InStep(Added(b, d, ans).devices, Added(b, d, ans).bells)
  {
    if Fits(b, d) {
      var bdf, e := Bdf(0, b.nextDev, 0), Entry(d, Grant(b, d).bars);
      assert bdf !in b.devices;
      forall i | 0 <= i < |b.bells.registered| ensures InPlace(b.devices[bdf := e], b.bells.registered[i]) {
        InPlaceSame(b.devices, b.devices[bdf := e], b.bells.registered[i]);
      }
      RegisteredInStep(b.devices[bdf := e], b.bells, bdf, ans, |d.doors|);
    }
  }

  lemma AddKeepsDoors(b: State, d: Device, ans: Answers)
    requires Ok(b) && DoorsFit(b.devices) && Declared(AddDevice(d, ans))
    ensures DoorsFit(Added(b, d, ans).devices)
  {
    if Fits(b, d) {
      HighWaterIsAbove(b.regions, WINDOW32, |b.regions|, 0);
      HighWaterIsAbove(b.regions, b.w64, |b.regions|, 0);
      GrantIsComplete(d.wants, b.w64, MarksOf(b.regions, b.w64));
      var bars, after := Grant(b, d).bars, Added(b, d, ans).devices;
      forall bdf, k | bdf in after && k in after[bdf].bars ensures DoorsInside(after[bdf], k) {
        if bdf in b.devices && bdf != Bdf(0, b.nextDev, 0) {
          assert DoorsInside(b.devices[bdf], k);
        } else {
          assert k < SLOTS && bars[k].size == d.wants[k].size;
        }
      }
    }
  }

  lemma WithBarSame(devices: map<Bdf, Entry>, bdf: Bdf, idx: nat, bar: Bar)
    requires bdf in devices && idx in devices[bdf].bars && bar.size == devices[bdf].bars[idx].size
    ensures SameShape(devices, WithBar(devices, bdf, idx, bar))
    ensures bar.addr == devices[bdf].bars[idx].addr ==> SameBases(devices, WithBar(devices, bdf, idx, bar))
  {
  }

  lemma ReadKeepsStep(b: State, bdf: Bdf, offset: nat)
    ensures SameBases(b.devices, AfterConfigRead(b, bdf, offset).devices)
    ensures AfterConfigRead(b, bdf, offset).bells == b.bells
  {
    if bdf in b.devices && SlotAt(offset).Some? {
      var f := FindBar(b.devices[bdf].bars, SlotAt(offset).value);
      if f.Half? {
        WithBarSame(b.devices, bdf, f.idx, AfterRead(b.devices[bdf].bars[f.idx], f.high));
      }
    }
  }

  // ---- writes ----

  lemma BarMoveFollowsIff(b: State, bdf: Bdf, idx: nat, bar: Bar, ans: Answers, after: State)
    requires Ok(b) && InStep(b.devices, b.bells) && b.registrar && DoorsFit(b.devices)
    requires bdf in b.devices && idx in b.devices[bdf].bars && Good(bar, b.w64)
    requires bar.kind == b.devices[bdf].bars[idx].kind && bar.size == b.devices[bdf].bars[idx].size
    requires bar.addr != b.devices[bdf].bars[idx].addr && after == BarChanged(b, bdf, idx, bar, ans)
    ensures InStep(after.devices, after.bells) <==>
      CallsGranted(b.bells, bdf, idx, b.devices[bdf].bars[idx].addr, bar.addr, ans)
  {
    var from := b.devices[bdf].bars[idx].addr;
    MovesWell(b, bdf, idx, bar);
    MoveFollowsIff(b.devices, b.bells, bdf, idx, bar.addr, ans);
    BaseIsBar(b.devices, bdf, idx, bar);
    InStepSame(WithBase(b.devices, bdf, idx, bar.addr), WithBar(b.devices, bdf, idx, bar), after.bells);
  }

  lemma MovesWell(b: State, bdf: Bdf, idx: nat, bar: Bar)
    requires Ok(b) && DoorsFit(b.devices) && bdf in b.devices && idx in b.devices[bdf].bars && Good(bar, b.w64)
    requires bar.size == b.devices[bdf].bars[idx].size && bar.addr != b.devices[bdf].bars[idx].addr
    ensures Moves(b.devices, bdf, idx, bar.addr)
  {
    assert Good(b.devices[bdf].bars[idx], b.w64) && DoorsInside(b.devices[bdf], idx);
  }

  lemma BaseIsBar(devices: map<Bdf, Entry>, bdf: Bdf, idx: nat, bar: Bar)
    requires bdf in devices && idx in devices[bdf].bars && bar.size == devices[bdf].bars[idx].size
    ensures SameBases(WithBase(devices, bdf, idx, bar.addr), WithBar(devices, bdf, idx, bar))
  {
  }

  /** A write to a BAR either leaves the bases alone, or moves the one it says. */
  lemma BarChangeFollowsIff(b: State, bdf: Bdf, idx: nat, bar: Bar, ans: Answers, after: State)
    requires Ok(b) && InStep(b.devices, b.bells) && b.registrar && DoorsFit(b.devices)
    requires bdf in b.devices && idx in b.devices[bdf].bars && Good(bar, b.w64)
    requires bar.kind == b.devices[bdf].bars[idx].kind && bar.size == b.devices[bdf].bars[idx].size
    requires after == BarChanged(b, bdf, idx, bar, ans)
    ensures SameShape(b.devices, after.devices)
    ensures InStep(after.devices, after.bells) <==>
      (bar.addr != b.devices[bdf].bars[idx].addr ==>
         CallsGranted(b.bells, bdf, idx, b.devices[bdf].bars[idx].addr, bar.addr, ans))
  {
    WithBarSame(b.devices, bdf, idx, bar);
    if bar.addr == b.devices[bdf].bars[idx].addr {
      InStepSame(b.devices, after.devices, b.bells);
    } else {
      BarMoveFollowsIff(b, bdf, idx, bar, ans, after);
    }
  }

  lemma WithCfgSame(devices: map<Bdf, Entry>, bdf: Bdf, cfg: seq<Byte>)
    requires bdf in devices && |cfg| == SIZE
    ensures SameBases(devices, WithCfg(devices, bdf, cfg))
  {
  }

  /** The BAR as a write leaves it. */
  function Rewritten(b: State, at: Place, idx: nat, high: bool, bytes: seq<Byte>): Bar
    requires at.bdf in b.devices && idx in b.devices[at.bdf].bars && |bytes| >= 4
  {
    var was := b.devices[at.bdf].bars[idx];
    AfterWrite(was, WindowFor(was.kind, b.w64), high, FromLe4(bytes))
  }

  lemma WriteIsBarChange(b: State, at: Place, idx: nat, high: bool, bytes: seq<Byte>, ans: Answers)
    requires at.bdf in b.devices && SlotAt(at.reg).Some? && |bytes| >= 4
    requires FindBar(b.devices[at.bdf].bars, SlotAt(at.reg).value) == Half(idx, high)
    ensures var bar, from := Rewritten(b, at, idx, high, bytes), b.devices[at.bdf].bars[idx].addr;
      && AfterConfigWrite(b, at.bdf, at.reg, bytes, ans) == BarChanged(b, at.bdf, idx, bar, ans)
      && (AccessGranted(b, Writes(at, bytes, ans)) <==>
          (bar.addr != from ==> CallsGranted(b.bells, at.bdf, idx, from, bar.addr, ans)))
  {
  }

  lemma BarWriteFollowsIff(
    b: State, at: Place, idx: nat, high: bool, bytes: seq<Byte>, ans: Answers, after: State)
    requires Ok(b) && InStep(b.devices, b.bells) && b.registrar && DoorsFit(b.devices)
    requires at.bdf in b.devices && SlotAt(at.reg).Some? && |bytes| >= 4
    requires FindBar(b.devices[at.bdf].bars, SlotAt(at.reg).value) == Half(idx, high)
    requires after == AfterConfigWrite(b, at.bdf, at.reg, bytes, ans)
    ensures SameShape(b.devices, after.devices)
    ensures InStep(after.devices, after.bells) <==> AccessGranted(b, Writes(at, bytes, ans))
  {
    WriteIsBarChange(b, at, idx, high, bytes, ans);
    RewrittenIsGood(b, at, idx, high, bytes);
    BarChangeFollowsIff(b, at.bdf, idx, Rewritten(b, at, idx, high, bytes), ans, after);
  }

  lemma RewrittenIsGood(b: State, at: Place, idx: nat, high: bool, bytes: seq<Byte>)
    requires Ok(b) && at.bdf in b.devices && idx in b.devices[at.bdf].bars && |bytes| >= 4
    ensures var was, bar := b.devices[at.bdf].bars[idx], Rewritten(b, at, idx, high, bytes);
      Good(bar, b.w64) && bar.kind == was.kind && bar.size == was.size
  {
    assert Good(b.devices[at.bdf].bars[idx], b.w64);
    WriteIsGood(b.devices[at.bdf].bars[idx], b.w64, high, FromLe4(bytes));
  }

  lemma WriteFollowsIff(b: State, at: Place, bytes: seq<Byte>, ans: Answers, after: State)
    requires Ok(b) && InStep(b.devices, b.bells) && b.registrar && DoorsFit(b.devices)
    requires after == AfterConfigWrite(b, at.bdf, at.reg, bytes, ans)
    ensures SameShape(b.devices, after.devices)
    ensures InStep(after.devices, after.bells) <==> AccessGranted(b, Writes(at, bytes, ans))
  {
    if at.bdf in b.devices {
      var e := b.devices[at.bdf];
      if SlotAt(at.reg).None? {
        WithCfgSame(b.devices, at.bdf, Written(e.device.cfg, e.device.msixCap, at.reg, bytes));
        InStepSame(b.devices, after.devices, b.bells);
      } else {
        var f := FindBar(e.bars, SlotAt(at.reg).value);
        if f.Half? && |bytes| >= 4 {
          BarWriteFollowsIff(b, at, f.idx, f.high, bytes, ans, after);
        }
      }
    }
  }

  // ---- runs ----

  /** The bus with every doorbell where it belongs. */
  ghost predicate Following(b: State) {
    Ok(b) && b.registrar && DoorsFit(b.devices) && InStep(b.devices, b.bells)
  }

  lemma RegistrarStays(b: State, op: Op)
    ensures After(b, op).registrar == b.registrar
  {
  }

  /** What a step keeps whatever the kernel answers. */
  lemma StepKeepsDoors(b: State, op: Op)
    requires Following(b) && Declared(op)
    ensures DoorsFit(After(b, op).devices)
  {
    if op.AddDevice? {
      AddKeepsDoors(b, op.device, op.ans);
    } else {
      StepIsAccess(b, op);
      AccessFollowsIff(b, AccessOf(b, op), After(b, op));
      DoorsFitSame(b.devices, After(b, op).devices);
    }
  }

  /** What an access amounts to. */
  ghost predicate Leads(b: State, a: Access, after: State) {
    match a
    case NoAccess => after == b.(configAddr := after.configAddr)
    case Reads(p) => after == AfterConfigRead(b, p.bdf, p.reg)
    case Writes(p, bytes, ans) => after == AfterConfigWrite(b, p.bdf, p.reg, bytes, ans)
  }

  lemma AccessFollowsIff(b: State, a: Access, after: State)
    requires Following(b) && Leads(b, a, after)
    ensures SameShape(b.devices, after.devices)
    ensures InStep(after.devices, after.bells) <==> AccessGranted(b, a)
  {
    match a {
      case NoAccess =>
      case Reads(p) =>
        ReadKeepsStep(b, p.bdf, p.reg);
        InStepSame(b.devices, after.devices, b.bells);
      case Writes(p, bytes, ans) =>
        WriteFollowsIff(b, p, bytes, ans, after);
    }
  }

  /** One step leaves every doorbell where it belongs if and only if the kernel grants the calls it
      makes for them. */
  lemma StepFollowsIff(b: State, op: Op, after: State)
    requires Following(b) && Declared(op) && after == After(b, op)
    ensures InStep(after.devices, after.bells) <==> Granted(b, op)
    ensures InStep(after.devices, after.bells) ==> Following(after)
  {
    StepKeepsOk(b, op);
    RegistrarStays(b, op);
    StepKeepsDoors(b, op);
    if op.AddDevice? {
      AddKeepsStep(b, op.device, op.ans);
    } else {
      StepIsAccess(b, op);
      AccessFollowsIff(b, AccessOf(b, op), after);
    }
  }

  lemma FreshFollows(w64: Window)
    requires Roomy(w64)
    ensures Following(Fresh(w64, true))
  {
    assert Places([]) == [];
  }

  /** Every doorbell is in step at every point of a run, up to its `n`th operation. */
  ghost predicate InStepAllAlong(b: State, ops: seq<Op>, n: nat)
    requires n <= |ops|
  {
    && (n > 0 ==> InStepAllAlong(b, ops, n - 1))
    && InStep(AfterAll(b, ops, n).devices, AfterAll(b, ops, n).bells)
  }

  ghost predicate GrantedAllAlong(b: State, ops: seq<Op>, n: nat)
    requires n <= |ops|
  {
    n > 0 ==> GrantedAllAlong(b, ops, n - 1) && Granted(AfterAll(b, ops, n - 1), ops[n - 1])
  }

  lemma {:induction false} RunFollowsIff(b: State, ops: seq<Op>, n: nat)
    requires Following(b) && n <= |ops| && forall i :: 0 <= i < |ops| ==> Declared(ops[i])
    ensures InStepAllAlong(b, ops, n) <==> GrantedAllAlong(b, ops, n)
    ensures InStepAllAlong(b, ops, n) ==> Following(AfterAll(b, ops, n))
  {
    if n > 0 {
      RunFollowsIff(b, ops, n - 1);
      if InStepAllAlong(b, ops, n - 1) {
        StepFollowsIff(AfterAll(b, ops, n - 1), ops[n - 1], AfterAll(b, ops, n));
      }
    }
  }

  /** Over every run on every processor: each registered doorbell is at its BAR's present base plus its
      offset all along, and the kernel has exactly those, if and only if the kernel grants every
      call made while a BAR moves. */
  lemma DoorbellsFollowIff(physBits: nat, ops: seq<Op>)
    requires forall i :: 0 <= i < |ops| ==> Declared(ops[i])
    ensures var b := Fresh(Window64(physBits), true);
      InStepAllAlong(b, ops, |ops|) <==> GrantedAllAlong(b, ops, |ops|)
  {
    Window64IsRoomy(physBits);
    FreshFollows(Window64(physBits));
    RunFollowsIff(Fresh(Window64(physBits), true), ops, |ops|);
  }
}
