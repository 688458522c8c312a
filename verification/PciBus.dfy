/** The bus as it runs: a map of devices, a flat list of regions and a list of doorbells, each changed
    in place, step for step as the values in `Bus` say. */
module PciBus {
  import opened Wrappers
  import opened Segments
  import opened Layout
  import opened Bars
  import opened BarAlloc
  import opened PciTypes
  import opened Doorbells
  import opened BusIndex
  import opened CapList
  import opened Bus

  class Machine {
    const w64: Window
    const registrar: bool
    var devices: map<Bdf, Entry>
    var nextDev: nat
    var configAddr: nat
    var regions: seq<Region>
    var registered: seq<Bell>
    ghost var calls: seq<Call>

    ghost function BellsView(): Bells
      reads this
    {
      Bells(registered, calls)
    }

    ghost function View(): State
      reads this
    {
      State(w64, devices, nextDev, configAddr, regions, BellsView(), registrar)
    }

    ghost predicate Valid()
      reads this
    {
      Ok(View())
    }

    constructor (physBits: nat, kernelHelps: bool)
      ensures Valid() && View() == Fresh(Window64(physBits), kernelHelps)
    {
      w64, registrar := Window64(physBits), kernelHelps;
      devices, nextDev, configAddr, regions := map[], 1, 0, [];
      registered, calls := [], [];
      new;
      Window64IsRoomy(physBits);
    }

    // ---- doorbells ----

    /** `register_doorbells` */
    method RegisterDoorbells(bdf: Bdf, doors: seq<Door>, bars: map<nat, Bar>, ans: Answers)
      modifies this`registered, this`calls
      ensures BellsView() == Registered(old(BellsView()), bdf, doors, bars, ans, |doors|)
    {
      for n := 0 to |doors|
        invariant BellsView() == Registered(old(BellsView()), bdf, doors, bars, ans, n)
      {
        var d := doors[n];
        if d.bar in bars {
          var addr := bars[d.bar].addr + d.offset;
          if ans.register(addr, d.fd) {
            registered := registered + [Bell(bdf, d.bar, addr, d.fd)];
            calls := calls + [Register(addr, d.fd)];
          }
        }
      }
    }

    /** `move_doorbells_from` */
    method MoveDoorbells(bdf: Bdf, bar: nat, from: nat, to: nat, ans: Answers)
      modifies this`registered, this`calls
      ensures BellsView() == Moved(old(BellsView()), bdf, bar, from, to, ans, |old(registered)|)
    {
      ghost var b := BellsView();
      for n := 0 to |registered|
        invariant |registered| == |b.registered|
        invariant BellsView() == Moved(b, bdf, bar, from, to, ans, n)
      {
        MoveNext(b, n, bdf, bar, from, to, ans);
      }
    }

    method MoveNext(ghost b: Bells, n: nat, bdf: Bdf, bar: nat, from: nat, to: nat, ans: Answers)
      requires n < |b.registered| == |registered| && BellsView() == Moved(b, bdf, bar, from, to, ans, n)
      modifies this`registered, this`calls
      ensures |registered| == |b.registered| && BellsView() == Moved(b, bdf, bar, from, to, ans, n + 1)
    {
      MovedStep(b, bdf, bar, from, to, ans, n);
      FollowBar(n, bdf, bar, from, to, ans);
    }

    method FollowBar(n: nat, bdf: Bdf, bar: nat, from: nat, to: nat, ans: Answers)
      requires n < |registered|
      modifies this`registered, this`calls
      ensures BellsView() == Follow(old(BellsView()), n, bdf, bar, from, to, ans)
    {
      var e := registered[n];
      if e.bdf == bdf && e.bar == bar {
        MoveDoorbell(n, to + Minus(e.addr, from), ans);
      }
    }

    /** Taken from the kernel first, given back at the new address, and recorded only if that worked. */
    method MoveDoorbell(n: nat, to: nat, ans: Answers)
      requires n < |registered|
      modifies this`registered, this`calls
      ensures BellsView() == MoveOne(old(BellsView()), n, to, ans)
    {
      var e := registered[n];
      if to == e.addr {
        return;
      }
      if ans.unregister(e.addr, e.fd) {
        calls := calls + [Unregister(e.addr, e.fd)];
      }
      if ans.register(to, e.fd) {
        calls := calls + [Register(to, e.fd)];
        registered := registered[n := e.(addr := to)];
      }
    }

    // ---- regions ----

    method AppendRegions(bdf: Bdf, bars: map<nat, Bar>)
      modifies this`regions
      ensures regions == old(regions) + RegionsOf(bdf, bars, SLOTS)
    {
      for n := 0 to SLOTS
        invariant regions == old(regions) + RegionsOf(bdf, bars, n)
      {
        if n in bars {
          regions := regions + [Region(bars[n].addr, bars[n].size, bdf, n)];
        }
      }
    }

    method Rebase(bdf: Bdf, idx: nat, base: nat)
      modifies this`regions
      ensures regions == Rebased(old(regions), bdf, idx, base)
    {
      for n := 0 to |regions|
        invariant |regions| == |old(regions)|
        invariant forall i :: 0 <= i < n ==> regions[i] == Rebased(old(regions), bdf, idx, base)[i]
        invariant forall i :: n <= i < |regions| ==> regions[i] == old(regions)[i]
      {
        if regions[n].bdf == bdf && regions[n].idx == idx {
          regions := regions[n := regions[n].(base := base)];
        }
      }
    }

    // ---- adding a device ----

    /** `add_device_arc`. A device that does not fit changes nothing. */
    method Add(d: Device, ans: Answers) returns (r: Option<Bdf>)
      requires Valid()
      modifies this
      ensures Valid() && View() == Added(old(View()), d, ans)
      ensures r == if Fits(old(View()), d) then Some(Bdf(0, old(nextDev), 0)) else None
    {
      AddKeepsOk(View(), d, ans);
      if nextDev > 31 {
        return None;
      }
      var next32 := HighWaterMark(regions, WINDOW32);
      var next64 := HighWaterMark(regions, w64);
      var got := AllocateBars(d.wants, w64, Marks(next32, next64));
      if !got.Granted? {
        return None;
      }
      var bdf := Bdf(0, nextDev, 0);
      devices := devices[bdf := Entry(d, got.bars)];
      nextDev := nextDev + 1;
      AppendRegions(bdf, got.bars);
      if registrar {
        RegisterDoorbells(bdf, d.doors, got.bars, ans);
      }
      return Some(bdf);
    }

    // ---- configuration space ----

    /** `config_read` */
    method ConfigRead(bdf: Bdf, offset: nat, len: nat) returns (r: Option<seq<Byte>>)
      modifies this`devices
      ensures r == ReadBytes(old(View()), bdf, offset, len)
      ensures View() == AfterConfigRead(old(View()), bdf, offset)
    {
      if bdf == HOST_BRIDGE {
        return Some(Bridge(offset, len));
      }
      if bdf !in devices {
        return None;
      }
      var slot := SlotAt(offset);
      if slot.None? {
        return Some(ReadCfg(devices[bdf].device.cfg, offset, len));
      }
      var found := FindBar(devices[bdf].bars, slot.value);
      if found.Nothing? {
        return Some(Zeros(len));
      }
      var bar := devices[bdf].bars[found.idx];
      devices := WithBar(devices, bdf, found.idx, AfterRead(bar, found.high));
      return Some(Lanes(ReadValue(bar, found.high), offset % 4, len));
    }

    /** `config_write` */
    method ConfigWrite(bdf: Bdf, offset: nat, bytes: seq<Byte>, ans: Answers)
      modifies this`devices, this`regions, this`registered, this`calls
      ensures View() == AfterConfigWrite(old(View()), bdf, offset, bytes, ans)
    {
      if bdf !in devices {
        return;
      }
      var e := devices[bdf];
      var slot := SlotAt(offset);
      if slot.None? {
        devices := WithCfg(devices, bdf, Written(e.device.cfg, e.device.msixCap, offset, bytes));
        return;
      }
      var found := FindBar(e.bars, slot.value);
      if found.Nothing? || |bytes| < 4 {
        return;
      }
      var bar := e.bars[found.idx];
      ChangeBar(bdf, found.idx, AfterWrite(bar, WindowFor(bar.kind, w64), found.high, FromLe4(bytes)), ans);
    }

    /** The BAR first, then the list, then the doorbells. */
    method ChangeBar(bdf: Bdf, idx: nat, bar: Bar, ans: Answers)
      requires bdf in devices && idx in devices[bdf].bars
      modifies this`devices, this`regions, this`registered, this`calls
      ensures View() == BarChanged(old(View()), bdf, idx, bar, ans)
    {
      var from := devices[bdf].bars[idx].addr;
      devices := WithBar(devices, bdf, idx, bar);
      if bar.addr == from {
        return;
      }
      Rebase(bdf, idx, bar.addr);
      if registrar {
        MoveDoorbells(bdf, idx, from, bar.addr, ans);
      }
    }

    // ---- the ports and the window ----

    /** `handle_pio_write` */
    method PioWriteTo(port: nat, bytes: seq<Byte>, ans: Answers)
      requires Valid()
      modifies this
      ensures Valid() && View() == AfterPioWrite(old(View()), port, bytes, ans)
    {
      if CONFIG_ADDRESS <= port < CONFIG_ADDRESS + 4 {
        if |bytes| == 4 {
          Select(FromLe4(bytes));
        }
      } else if CONFIG_DATA <= port < CONFIG_DATA + 4 {
        var place := CamPlace(configAddr, port - CONFIG_DATA);
        if place.Some? {
          ConfigWriteKeepsOk(View(), place.value.bdf, place.value.reg, bytes, ans);
          ConfigWrite(place.value.bdf, place.value.reg, bytes, ans);
        }
      }
    }

    method Select(address: nat)
      requires Valid()
      modifies this`configAddr
      ensures Valid() && View() == old(View()).(configAddr := address)
    {
      configAddr := address;
    }

    /** `handle_pio_read` */
    method PioReadFrom(port: nat, len: nat) returns (r: Option<seq<Byte>>)
      requires Valid()
      modifies this
      ensures Valid() && View() == AfterPioRead(old(View()), port) && r == PioBytes(old(View()), port, len)
    {
      if CONFIG_ADDRESS <= port < CONFIG_ADDRESS + 4 {
        return Some(Lanes(configAddr, port - CONFIG_ADDRESS, len));
      }
      if CONFIG_DATA <= port < CONFIG_DATA + 4 {
        var place := CamPlace(configAddr, port - CONFIG_DATA);
        if place.None? {
          return Some(Ones(len));
        }
        ConfigReadKeepsOk(View(), place.value.bdf, place.value.reg);
        var got := ConfigRead(place.value.bdf, place.value.reg, len);
        return Some(OrOnes(got, len));
      }
      return None;
    }

    /** `handle_mmio_write` inside the configuration window. */
    method EcamWriteTo(addr: nat, bytes: seq<Byte>, ans: Answers)
      requires Valid() && InEcam(addr)
      modifies this
      ensures Valid() && View() == AfterEcamWrite(old(View()), addr, bytes, ans)
    {
      EcamWriteKeepsOk(View(), addr, bytes, ans);
      var place := EcamPlace(addr);
      if place.reg < SIZE {
        ConfigWrite(place.bdf, place.reg, bytes, ans);
      }
    }

    /** `handle_mmio_read` inside the configuration window. */
    method EcamReadFrom(addr: nat, len: nat) returns (r: seq<Byte>)
      requires Valid() && InEcam(addr)
      modifies this
      ensures Valid() && View() == AfterEcamRead(old(View()), addr) && r == EcamBytes(old(View()), addr, len)
    {
      EcamReadKeepsOk(View(), addr);
      var place := EcamPlace(addr);
      if place.reg >= SIZE {
        return Zeros(len);
      }
      var got := ConfigRead(place.bdf, place.reg, len);
      return OrOnes(got, len);
    }

    /** Outside it: the BAR an access reaches, and the offset inside. */
    method Dispatch(addr: nat) returns (r: Option<(Bdf, nat, nat)>)
      requires Valid()
      ensures r.Some? ==> BarAt(devices, r.value.0, r.value.1, addr)
      ensures r.Some? ==> devices[r.value.0].bars[r.value.1].addr + r.value.2 == addr
      ensures r.None? ==> forall bdf, idx :: !BarAt(devices, bdf, idx, addr)
    {
      DispatchIsExact(devices, regions, addr);
      var hit := FindRegion(regions, addr);
      if hit.None? {
        return None;
      }
      var region := regions[hit.value];
      assert Current(devices, region);
      return Some((region.bdf, region.idx, addr - region.base));
    }
  }
}
