/** The flat list of regions the bus dispatches by, against the BARs it must agree with. */
module BusIndex {
  import opened Wrappers
  import opened Layout
  import opened Bars
  import opened BarAlloc
  import opened PciTypes

  datatype Region = Region(base: nat, size: nat, bdf: Bdf, idx: nat)

  // ---- the list and the BARs ----

  /** The region is a BAR at its present address. */
  ghost predicate Current(devices: map<Bdf, Entry>, r: Region) {
    && r.bdf in devices && r.idx in devices[r.bdf].bars
    && r.base == devices[r.bdf].bars[r.idx].addr && r.size == devices[r.bdf].bars[r.idx].size
  }

  ghost predicate Listed(regions: seq<Region>, bdf: Bdf, idx: nat) {
    exists i :: 0 <= i < |regions| && regions[i].bdf == bdf && regions[i].idx == idx
  }

  predicate SameKey(r: Region, s: Region) {
    r.bdf == s.bdf && r.idx == s.idx
  }

  /** The list holds exactly the BARs, each once and where it is now. */
  ghost predicate Indexed(devices: map<Bdf, Entry>, regions: seq<Region>) {
    && (forall i :: 0 <= i < |regions| ==> Current(devices, regions[i]))
    && (forall bdf, idx :: bdf in devices && idx in devices[bdf].bars ==> Listed(regions, bdf, idx))
    && (forall i, j :: 0 <= i < j < |regions| ==> !SameKey(regions[i], regions[j]))
  }

  // ---- a new device ----

  /** The regions of one device's first `n` registers. */
  function RegionsOf(bdf: Bdf, bars: map<nat, Bar>, n: nat): seq<Region> {
    if n == 0 then []
    else if n - 1 in bars then
      RegionsOf(bdf, bars, n - 1) + [Region(bars[n - 1].addr, bars[n - 1].size, bdf, n - 1)]
    else RegionsOf(bdf, bars, n - 1)
  }

  ghost predicate RegionsAre(bdf: Bdf, bars: map<nat, Bar>, n: nat, rs: seq<Region>) {
    && (forall i :: 0 <= i < |rs| ==>
          && rs[i].bdf == bdf && rs[i].idx < n && rs[i].idx in bars
          && rs[i].base == bars[rs[i].idx].addr && rs[i].size == bars[rs[i].idx].size)
    && (forall idx :: idx in bars && idx < n ==> Listed(rs, bdf, idx))
    && (forall i, j :: 0 <= i < j < |rs| ==> rs[i].idx != rs[j].idx)
  }

  lemma ListedGrows(regions: seq<Region>, more: seq<Region>, bdf: Bdf, idx: nat)
    ensures Listed(regions, bdf, idx) || Listed(more, bdf, idx) ==> Listed(regions + more, bdf, idx)
  {
    var all := regions + more;
    if Listed(regions, bdf, idx) {
      var i :| 0 <= i < |regions| && regions[i].bdf == bdf && regions[i].idx == idx;
      assert all[i] == regions[i];
    } else if Listed(more, bdf, idx) {
      var i :| 0 <= i < |more| && more[i].bdf == bdf && more[i].idx == idx;
      assert all[|regions| + i] == more[i];
    }
  }

  lemma {:induction false} RegionsOfAre(bdf: Bdf, bars: map<nat, Bar>, n: nat)
    ensures RegionsAre(bdf, bars, n, RegionsOf(bdf, bars, n))
  {
    if n > 0 {
      RegionsOfAre(bdf, bars, n - 1);
      if n - 1 in bars {
        var before := RegionsOf(bdf, bars, n - 1);
        var r := Region(bars[n - 1].addr, bars[n - 1].size, bdf, n - 1);
        forall idx | idx in bars && idx < n ensures Listed(before + [r], bdf, idx) {
          assert [r][0] == r;
          ListedGrows(before, [r], bdf, idx);
        }
      }
    }
  }

  lemma AddIndexed(devices: map<Bdf, Entry>, regions: seq<Region>, bdf: Bdf, e: Entry)
    requires Indexed(devices, regions) && bdf !in devices && forall i :: i in e.bars ==> i < SLOTS
    ensures Indexed(devices[bdf := e], regions + RegionsOf(bdf, e.bars, SLOTS))
  {
    var more := RegionsOf(bdf, e.bars, SLOTS);
    RegionsOfAre(bdf, e.bars, SLOTS);
    var all, after := regions + more, devices[bdf := e];
    forall i | 0 <= i < |all| ensures Current(after, all[i]) {
      assert i < |regions| ==> Current(devices, all[i]);
      assert i >= |regions| ==> all[i] == more[i - |regions|];
    }
    forall b, idx | b in after && idx in after[b].bars ensures Listed(all, b, idx) {
      ListedGrows(regions, more, b, idx);
    }
    forall i, j | 0 <= i < j < |all| ensures !SameKey(all[i], all[j]) {
      assert i < |regions| ==> Current(devices, all[i]);
      assert j >= |regions| ==> all[j] == more[j - |regions|];
      assert i >= |regions| ==> all[i] == more[i - |regions|];
    }
  }

  // ---- a BAR that changes ----

  function Rebased(regions: seq<Region>, bdf: Bdf, idx: nat, base: nat): seq<Region> {
    seq(|regions|, i requires 0 <= i < |regions| =>
      if regions[i].bdf == bdf && regions[i].idx == idx then regions[i].(base := base) else regions[i])
  }

  function WithBar(devices: map<Bdf, Entry>, bdf: Bdf, idx: nat, bar: Bar): map<Bdf, Entry>
    requires bdf in devices
  {
    devices[bdf := devices[bdf].(bars := devices[bdf].bars[idx := bar])]
  }

  lemma SameKeysListed(regions: seq<Region>, others: seq<Region>, bdf: Bdf, idx: nat)
    requires |regions| == |others| && Listed(regions, bdf, idx)
    requires forall i :: 0 <= i < |regions| ==> SameKey(regions[i], others[i])
    ensures Listed(others, bdf, idx)
  {
    var i :| 0 <= i < |regions| && regions[i].bdf == bdf && regions[i].idx == idx;
    assert SameKey(regions[i], others[i]);
  }

  lemma MoveIndexed(devices: map<Bdf, Entry>, regions: seq<Region>, bdf: Bdf, idx: nat, bar: Bar)
    requires Indexed(devices, regions) && bdf in devices && idx in devices[bdf].bars
    requires bar.size == devices[bdf].bars[idx].size
    ensures Indexed(WithBar(devices, bdf, idx, bar), Rebased(regions, bdf, idx, bar.addr))
  {
    var all, after := Rebased(regions, bdf, idx, bar.addr), WithBar(devices, bdf, idx, bar);
    forall i | 0 <= i < |all| ensures Current(after, all[i]) {
      assert Current(devices, regions[i]);
    }
    forall b, k | b in after && k in after[b].bars ensures Listed(all, b, k) {
      SameKeysListed(regions, all, b, k);
    }
    forall i, j | 0 <= i < j < |all| ensures !SameKey(all[i], all[j]) {
      assert !SameKey(regions[i], regions[j]);
    }
  }

  /** A change that moves nothing leaves the list as it is. */
  lemma StillIndexed(devices: map<Bdf, Entry>, after: map<Bdf, Entry>, regions: seq<Region>)
    requires Indexed(devices, regions) && devices.Keys == after.Keys
    requires forall b :: b in devices ==> devices[b].bars.Keys == after[b].bars.Keys
    requires forall b, k :: b in devices && k in devices[b].bars ==>
      devices[b].bars[k].addr == after[b].bars[k].addr && devices[b].bars[k].size == after[b].bars[k].size
    ensures Indexed(after, regions)
  {
    forall i | 0 <= i < |regions| ensures Current(after, regions[i]) {
      assert Current(devices, regions[i]);
    }
  }

  // ---- dispatch ----

  predicate Covers(r: Region, addr: nat) {
    r.base <= addr < r.base + r.size
  }

  /** The first region from `i` on that covers the address. */
  function Hit(regions: seq<Region>, addr: nat, i: nat): (h: Option<nat>)
    requires i <= |regions|
    ensures h.Some? ==> i <= h.value < |regions| && Covers(regions[h.value], addr)
    ensures h.None? ==> forall k :: i <= k < |regions| ==> !Covers(regions[k], addr)
    decreases |regions| - i
  {
    if i == |regions| then None else if Covers(regions[i], addr) then Some(i) else Hit(regions, addr, i + 1)
  }

  method FindRegion(regions: seq<Region>, addr: nat) returns (h: Option<nat>)
    ensures h == Hit(regions, addr, 0)
  {
    for i := 0 to |regions|
      invariant Hit(regions, addr, 0) == Hit(regions, addr, i)
    {
      if Covers(regions[i], addr) {
        return Some(i);
      }
    }
    return None;
  }

  ghost predicate BarAt(devices: map<Bdf, Entry>, bdf: Bdf, idx: nat, addr: nat) {
    && bdf in devices && idx in devices[bdf].bars
    && devices[bdf].bars[idx].addr <= addr < devices[bdf].bars[idx].addr + devices[bdf].bars[idx].size
  }

  /** An access reaches a BAR that is there now, and is dropped only where there is none. */
  lemma DispatchIsExact(devices: map<Bdf, Entry>, regions: seq<Region>, addr: nat)
    requires Indexed(devices, regions)
    ensures match Hit(regions, addr, 0)
      case Some(i) => BarAt(devices, regions[i].bdf, regions[i].idx, addr)
      case None => forall bdf, idx :: !BarAt(devices, bdf, idx, addr)
  {
    match Hit(regions, addr, 0) {
      case Some(i) => assert Current(devices, regions[i]);
      case None =>
        forall bdf, idx ensures !BarAt(devices, bdf, idx, addr) {
          if bdf in devices && idx in devices[bdf].bars {
            assert Listed(regions, bdf, idx);
            var i :| 0 <= i < |regions| && regions[i].bdf == bdf && regions[i].idx == idx;
            assert Current(devices, regions[i]) && !Covers(regions[i], addr);
          }
        }
    }
  }

  // ---- room for a new device ----

  /** The top of what is mapped from inside a window, over the first `n` regions. */
  function HighWater(regions: seq<Region>, w: Window, n: nat): nat
    requires n <= |regions|
  {
    if n == 0 then w.start
    else
      var before, r := HighWater(regions, w, n - 1), regions[n - 1];
      if Within(w, r.base) && r.base + r.size > before then r.base + r.size else before
  }

  method HighWaterMark(regions: seq<Region>, w: Window) returns (top: nat)
    ensures top == HighWater(regions, w, |regions|)
  {
    top := w.start;
    for i := 0 to |regions|
      invariant top == HighWater(regions, w, i)
    {
      var r := regions[i];
      if Within(w, r.base) && r.base + r.size > top {
        top := r.base + r.size;
      }
    }
  }

  lemma {:induction false} HighWaterIsAbove(regions: seq<Region>, w: Window, n: nat, i: nat)
    requires n <= |regions|
    ensures HighWater(regions, w, n) >= w.start
    ensures i < n && Within(w, regions[i].base) ==> regions[i].base + regions[i].size <= HighWater(regions, w, n)
  {
    if n > 0 {
      HighWaterIsAbove(regions, w, n - 1, i);
    }
  }

  function MarksOf(regions: seq<Region>, w64: Window): Marks {
    Marks(HighWater(regions, WINDOW32, |regions|), HighWater(regions, w64, |regions|))
  }

  /** Whatever moves came before, a new register overlaps nothing mapped at the time. */
  lemma NewBarIsApart(devices: map<Bdf, Entry>, regions: seq<Region>, w64: Window, b: Bar, i: nat)
    requires Indexed(devices, regions) && i < |regions| && WINDOW32.end <= w64.start
    requires forall bdf :: bdf in devices ==> BarsOk(devices[bdf].bars, w64)
    requires Good(b, w64) && Mark(MarksOf(regions, w64), b.kind) <= b.addr
    ensures RangesApart(b.addr, b.size, regions[i].base, regions[i].size)
  {
    var r := regions[i];
    assert Current(devices, r);
    assert Good(devices[r.bdf].bars[r.idx], w64);
    HighWaterIsAbove(regions, WINDOW32, |regions|, i);
    HighWaterIsAbove(regions, w64, |regions|, i);
  }
}
