/** Handing out KVM memory slot numbers: one for the GPU window, one for each resource that could
    not be placed inside it, recycled as they are unmapped, with the ioctl free to fail anywhere. */
module MemSlots {
  import opened Wrappers

  const U64: nat := 0x1_0000_0000_0000_0000

  datatype Region = Region(guest: nat, host: nat, size: nat)

  /** Who has a slot number. A lost one was unmapped by an ioctl that failed. */
  datatype Owner = Window | Mapping(addr: nat) | Nobody | Lost

  /** The allocator with the kernel's side of the story beside it. */
  datatype Slots = Slots(
    first: nat, next: nat,
    window: Option<nat>,       // the slot number of the open window
    mapped: map<nat, nat>,     // guest address to slot number
    free: seq<nat>,
    owner: map<nat, Owner>,    // of every number taken so far
    kvm: map<nat, Region>,     // what is registered, by slot number
    lost: nat,                 // numbers an unmap failed to give back
    attempts: nat,             // numbers taken for a window, opened or not
    peak: nat)                 // most mappings held or being attempted at once

  function Fresh(first: nat): Slots {
    Slots(first, first, None, map[], [], map[], map[], 0, 0, 0)
  }

  // ---- the invariant, piece by piece ----

  ghost predicate InRange(first: nat, next: nat, owner: map<nat, Owner>) {
    forall n :: n in owner ==> first <= n < next
  }

  ghost predicate MappedOk(mapped: map<nat, nat>, owner: map<nat, Owner>) {
    forall a :: a in mapped ==> mapped[a] in owner && owner[mapped[a]] == Mapping(a)
  }

  ghost predicate FreeOk(free: seq<nat>, owner: map<nat, Owner>) {
    && (forall i :: 0 <= i < |free| ==> free[i] in owner && owner[free[i]] == Nobody)
    && (forall i, j :: 0 <= i < j < |free| ==> free[i] != free[j])
  }

  ghost predicate WindowOk(window: Option<nat>, owner: map<nat, Owner>) {
    window.Some? ==> window.value in owner && owner[window.value] == Window
  }

  /** What is registered is exactly what somebody has, and a mapping is registered where it was
      asked for. */
  ghost predicate KvmOk(kvm: map<nat, Region>, owner: map<nat, Owner>) {
    && (forall n :: n in kvm ==> n in owner && owner[n] != Nobody)
    && (forall n :: n in owner && owner[n] != Nobody ==> n in kvm)
    && (forall n :: n in owner && owner[n].Mapping? ==> kvm[n].guest == owner[n].addr)
  }

  function WindowCount(window: Option<nat>): nat {
    if window.Some? then 1 else 0
  }

  /** Every number ever taken is the window's, a mapping's, free or lost. */
  ghost predicate Counted(s: Slots) {
    s.next == s.first + WindowCount(s.window) + |s.mapped| + |s.free| + s.lost
  }

  ghost predicate Bounded(s: Slots) {
    && WindowCount(s.window) <= s.attempts
    && |s.mapped| <= s.peak
    && WindowCount(s.window) + |s.mapped| + |s.free| <= s.attempts + s.peak
  }

  ghost predicate Ok(s: Slots) {
    && InRange(s.first, s.next, s.owner)
    && MappedOk(s.mapped, s.owner)
    && FreeOk(s.free, s.owner)
    && WindowOk(s.window, s.owner)
    && KvmOk(s.kvm, s.owner)
    && Counted(s) && Bounded(s)
  }

  // ---- operations ----

  /** Each operation with what the system calls in it will answer. */
  datatype Op =
    | OpenWindow(guest: nat, size: nat, reserved: Option<nat>, ioctl: bool)
    | Map(addr: nat, host: nat, size: nat, ioctl: bool)
    | Unmap(addr: nat, ioctl: bool)

  function Max(a: nat, b: nat): nat {
    if a < b then b else a
  }

  /** The number a mapping would get. */
  function Pick(s: Slots): nat {
    if s.free == [] then s.next else s.free[|s.free| - 1]
  }

  /** The allocator with that number taken. */
  function Picked(s: Slots): Slots {
    (if s.free == [] then s.(next := s.next + 1) else s.(free := s.free[..|s.free| - 1]))
    .(peak := Max(s.peak, |s.mapped| + 1))
  }

  function Opened(s: Slots, guest: nat, size: nat, reserved: Option<nat>, ioctl: bool): Slots {
    if s.window.Some? || reserved.None? then s
    else
      var taken := s.(next := s.next + 1, attempts := s.attempts + 1);
      if ioctl then
        taken.(window := Some(s.next), owner := s.owner[s.next := Window],
               kvm := s.kvm[s.next := Region(guest, reserved.value, size)])
      else taken.(free := s.free + [s.next], owner := s.owner[s.next := Nobody])
  }

  function Mapped(s: Slots, addr: nat, host: nat, size: nat, ioctl: bool): Slots {
    if addr in s.mapped then s
    else if ioctl then
      Picked(s).(mapped := s.mapped[addr := Pick(s)], owner := s.owner[Pick(s) := Mapping(addr)],
                 kvm := s.kvm[Pick(s) := Region(addr, host, size)])
    else Picked(s).(free := Picked(s).free + [Pick(s)], owner := s.owner[Pick(s) := Nobody])
  }

  function Unmapped(s: Slots, addr: nat, ioctl: bool): Slots {
    if addr !in s.mapped then s
    else
      var n := s.mapped[addr];
      if ioctl then
        s.(mapped := s.mapped - {addr}, kvm := s.kvm - {n}, free := s.free + [n], owner := s.owner[n := Nobody])
      else s.(mapped := s.mapped - {addr}, lost := s.lost + 1, owner := s.owner[n := Lost])
  }

  function After(s: Slots, op: Op): Slots {
    match op
    case OpenWindow(guest, size, reserved, ioctl) => Opened(s, guest, size, reserved, ioctl)
    case Map(addr, host, size, ioctl) => Mapped(s, addr, host, size, ioctl)
    case Unmap(addr, ioctl) => Unmapped(s, addr, ioctl)
  }

  // ---- what every operation keeps ----

  lemma RemoveCounts(m: map<nat, nat>, a: nat)
    requires a in m
    ensures |m - {a}| == |m| - 1
  {
    assert (m - {a}).Keys == m.Keys - {a};
    assert |(m - {a}).Keys| == |m - {a}| && |m.Keys| == |m|;
  }

  lemma InsertCounts(m: map<nat, nat>, a: nat, n: nat)
    requires a !in m
    ensures |m[a := n]| == |m| + 1
  {
    assert m[a := n].Keys == m.Keys + {a};
    assert |m[a := n].Keys| == |m[a := n]| && |m.Keys| == |m|;
  }

  /** A number about to be registered is nobody's: the ioctl never replaces a live region. */
  lemma PickIsNew(s: Slots)
    requires Ok(s)
    ensures s.next !in s.owner && s.next !in s.kvm && Pick(s) !in s.kvm
    ensures Pick(s) in s.owner ==> s.owner[Pick(s)] == Nobody
    ensures s.first <= Pick(s) < Picked(s).next
    ensures FreeOk(Picked(s).free, s.owner) && Pick(s) !in Picked(s).free
  {
  }

  /** Changing the owner of one number leaves the others' claims alone. */
  lemma Reassigned(s: Slots, n: nat, to: Owner)
    requires MappedOk(s.mapped, s.owner) && WindowOk(s.window, s.owner)
    requires n in s.owner ==> s.owner[n] == Nobody
    ensures MappedOk(s.mapped, s.owner[n := to]) && WindowOk(s.window, s.owner[n := to])
  {
  }

  lemma FreeGrows(free: seq<nat>, owner: map<nat, Owner>, n: nat)
    requires FreeOk(free, owner) && n !in free
    ensures FreeOk(free + [n], owner[n := Nobody])
  {
  }

  lemma FreeKept(free: seq<nat>, owner: map<nat, Owner>, n: nat, to: Owner)
    requires FreeOk(free, owner) && n !in free
    ensures FreeOk(free, owner[n := to])
  {
  }

  lemma KvmGains(kvm: map<nat, Region>, owner: map<nat, Owner>, n: nat, to: Owner, r: Region)
    requires KvmOk(kvm, owner) && to != Nobody && (to.Mapping? ==> r.guest == to.addr)
    ensures KvmOk(kvm[n := r], owner[n := to])
  {
  }

  lemma KvmDrops(kvm: map<nat, Region>, owner: map<nat, Owner>, n: nat)
    requires KvmOk(kvm, owner)
    ensures KvmOk(kvm - {n}, owner[n := Nobody])
  {
  }

  lemma Granted(s: Slots, n: nat, to: Owner, r: Region)
    requires MappedOk(s.mapped, s.owner) && WindowOk(s.window, s.owner) && KvmOk(s.kvm, s.owner)
    requires n in s.owner ==> s.owner[n] == Nobody
    requires to != Nobody && (to.Mapping? ==> r.guest == to.addr)
    ensures MappedOk(s.mapped, s.owner[n := to]) && WindowOk(s.window, s.owner[n := to])
    ensures KvmOk(s.kvm[n := r], s.owner[n := to])
  {
    Reassigned(s, n, to);
    KvmGains(s.kvm, s.owner, n, to, r);
  }

  lemma Refused(s: Slots, n: nat)
    requires MappedOk(s.mapped, s.owner) && WindowOk(s.window, s.owner) && KvmOk(s.kvm, s.owner)
    requires n in s.owner ==> s.owner[n] == Nobody
    ensures MappedOk(s.mapped, s.owner[n := Nobody]) && WindowOk(s.window, s.owner[n := Nobody])
    ensures KvmOk(s.kvm, s.owner[n := Nobody])
  {
    Reassigned(s, n, Nobody);
    KvmDrops(s.kvm, s.owner, n);
    assert s.kvm - {n} == s.kvm;
  }

  lemma OpenKeepsOk(s: Slots, guest: nat, size: nat, reserved: Option<nat>, ioctl: bool)
    requires Ok(s)
    ensures Ok(Opened(s, guest, size, reserved, ioctl))
  {
    PickIsNew(s);
    if s.window.None? && reserved.Some? {
      if ioctl {
        Granted(s, s.next, Window, Region(guest, reserved.value, size));
        FreeKept(s.free, s.owner, s.next, Window);
      } else {
        Refused(s, s.next);
        FreeGrows(s.free, s.owner, s.next);
      }
    }
  }

  lemma MapSucceeds(s: Slots, addr: nat, host: nat, size: nat)
    requires Ok(s) && addr !in s.mapped
    ensures Ok(Mapped(s, addr, host, size, true))
  {
    PickIsNew(s);
    InsertCounts(s.mapped, addr, Pick(s));
    Granted(s, Pick(s), Mapping(addr), Region(addr, host, size));
    FreeKept(Picked(s).free, s.owner, Pick(s), Mapping(addr));
  }

  lemma MapFails(s: Slots, addr: nat, host: nat, size: nat)
    requires Ok(s) && addr !in s.mapped
    ensures Ok(Mapped(s, addr, host, size, false))
  {
    PickIsNew(s);
    Refused(s, Pick(s));
    FreeGrows(Picked(s).free, s.owner, Pick(s));
  }

  lemma MapKeepsOk(s: Slots, addr: nat, host: nat, size: nat, ioctl: bool)
    requires Ok(s)
    ensures Ok(Mapped(s, addr, host, size, ioctl))
  {
    if addr !in s.mapped && ioctl {
      MapSucceeds(s, addr, host, size);
    } else if addr !in s.mapped {
      MapFails(s, addr, host, size);
    }
  }

  lemma UnmapKeepsOk(s: Slots, addr: nat, ioctl: bool)
    requires Ok(s)
    ensures Ok(Unmapped(s, addr, ioctl))
  {
    if addr in s.mapped {
      var n := s.mapped[addr];
      RemoveCounts(s.mapped, addr);
      if ioctl {
        FreeGrows(s.free, s.owner, n);
        KvmDrops(s.kvm, s.owner, n);
      } else {
        FreeKept(s.free, s.owner, n, Lost);
        KvmGains(s.kvm, s.owner, n, Lost, s.kvm[n]);
        assert s.kvm[n := s.kvm[n]] == s.kvm;
      }
    }
  }

  lemma StepKeepsOk(s: Slots, op: Op)
    requires Ok(s)
    ensures Ok(After(s, op))
  {
    match op
    case OpenWindow(guest, size, reserved, ioctl) => OpenKeepsOk(s, guest, size, reserved, ioctl);
    case Map(addr, host, size, ioctl) => MapKeepsOk(s, addr, host, size, ioctl);
    case Unmap(addr, ioctl) => UnmapKeepsOk(s, addr, ioctl);
  }

  function AfterAll(s: Slots, ops: seq<Op>, n: nat): Slots
    requires n <= |ops|
  {
    if n == 0 then s else After(AfterAll(s, ops, n - 1), ops[n - 1])
  }

  lemma {:induction false} RunKeepsOk(first: nat, ops: seq<Op>, n: nat)
    requires n <= |ops|
    ensures Ok(AfterAll(Fresh(first), ops, n))
  {
    if n > 0 {
      RunKeepsOk(first, ops, n - 1);
      StepKeepsOk(AfterAll(Fresh(first), ops, n - 1), ops[n - 1]);
    }
  }

  // ---- what follows for whole runs ----

  /** Live regions never share a number, each is where it was asked for, and a number waiting to be
      reused is not live. */
  ghost predicate Sound(s: Slots) {
    && (forall a, b :: a in s.mapped && b in s.mapped && a != b ==> s.mapped[a] != s.mapped[b])
    && (forall a :: a in s.mapped ==> s.mapped[a] in s.kvm && s.kvm[s.mapped[a]].guest == a)
    && (forall a :: a in s.mapped ==> s.window != Some(s.mapped[a]))
    && (forall i :: 0 <= i < |s.free| ==> s.free[i] !in s.kvm)
    && (forall i, j :: 0 <= i < j < |s.free| ==> s.free[i] != s.free[j])
    && (forall n :: n in s.kvm ==> s.first <= n < s.next)
  }

  lemma OkIsSound(s: Slots)
    requires Ok(s)
    ensures Sound(s)
  {
  }

  lemma OkIsBounded(s: Slots)
    requires Ok(s)
    ensures s.next - s.first <= s.attempts + s.peak + s.lost
  {
  }

  lemma NoSharedNumbers(first: nat, ops: seq<Op>)
    ensures Sound(AfterAll(Fresh(first), ops, |ops|))
  {
    RunKeepsOk(first, ops, |ops|);
    OkIsSound(AfterAll(Fresh(first), ops, |ops|));
  }

  lemma {:induction false} FirstStays(s: Slots, ops: seq<Op>, n: nat)
    requires n <= |ops|
    ensures AfterAll(s, ops, n).first == s.first
  {
    if n > 0 {
      FirstStays(s, ops, n - 1);
    }
  }

  /** Numbers consumed are paid for: window attempts, the busiest moment, and failed removals. So
      with one window and no failed removal, a session that never holds more than `k` mappings at
      a time uses at most `k + 1` numbers, however long it runs. */
  lemma ConsumptionIsBounded(first: nat, ops: seq<Op>)
    ensures var s := AfterAll(Fresh(first), ops, |ops|);
      s.next - first <= s.attempts + s.peak + s.lost
  {
    RunKeepsOk(first, ops, |ops|);
    FirstStays(Fresh(first), ops, |ops|);
    OkIsBounded(AfterAll(Fresh(first), ops, |ops|));
  }

  lemma LostStays(s: Slots, op: Op, number: nat)
    requires Ok(s) && number in s.owner && s.owner[number] == Lost
    ensures var t := After(s, op);
      number in t.owner && t.owner[number] == Lost && number in t.kvm && t.kvm[number] == s.kvm[number]
  {
    PickIsNew(s);
  }

  /** A number lost to a failed removal stays out of use for good: its old region stays registered,
      and nothing else ever is under it. */
  lemma {:induction false} LostForGood(s: Slots, ops: seq<Op>, n: nat, number: nat)
    requires Ok(s) && n <= |ops| && number in s.owner && s.owner[number] == Lost
    ensures var t := AfterAll(s, ops, n);
      && Ok(t) && number in t.owner && t.owner[number] == Lost
      && number in t.kvm && t.kvm[number] == s.kvm[number]
  {
    if n > 0 {
      LostForGood(s, ops, n - 1, number);
      LostStays(AfterAll(s, ops, n - 1), ops[n - 1], number);
      StepKeepsOk(AfterAll(s, ops, n - 1), ops[n - 1]);
    }
  }

  /** What some run leads to. */
  ghost predicate Reached(s: Slots) {
    exists first, ops :: s == AfterAll(Fresh(first), ops, |ops|)
  }

  lemma {:induction false} AfterAllPrefix(s: Slots, ops: seq<Op>, more: seq<Op>, n: nat)
    requires n <= |ops|
    ensures AfterAll(s, ops + more, n) == AfterAll(s, ops, n)
  {
    if n > 0 {
      AfterAllPrefix(s, ops, more, n - 1);
    }
  }

  lemma ReachedAfter(s: Slots, op: Op)
    requires Reached(s)
    ensures Reached(After(s, op))
  {
    var first, ops: seq<Op> :| s == AfterAll(Fresh(first), ops, |ops|);
    AfterAllPrefix(Fresh(first), ops, [op], |ops|);
    assert After(s, op) == AfterAll(Fresh(first), ops + [op], |ops + [op]|);
  }

  lemma ReachedOk(s: Slots)
    requires Reached(s)
    ensures Ok(s)
  {
    var first, ops: seq<Op> :| s == AfterAll(Fresh(first), ops, |ops|);
    RunKeepsOk(first, ops, |ops|);
  }

  lemma ReachedFresh(first: nat)
    ensures Reached(Fresh(first))
  {
    var none: seq<Op> := [];
    assert Fresh(first) == AfterAll(Fresh(first), none, |none|);
  }

  /** The two numbers an operation is about to use are not the window's. */
  lemma ReachedPick(s: Slots)
    requires Reached(s)
    ensures s.next !in s.kvm && Pick(s) !in s.kvm
    ensures forall a :: a in s.mapped ==> s.window != Some(s.mapped[a])
  {
    ReachedOk(s);
    PickIsNew(s);
  }

  // ---- the window ----

  /** Where a guest range of the window is in the host, or nothing if any of it is outside. */
  function HostAddr(window: Option<Region>, guest: nat, size: nat): (r: Option<nat>)
    ensures r.Some? <==>
      window.Some? && window.value.guest <= guest && guest + size <= window.value.guest + window.value.size
        && guest - window.value.guest + size < U64
    ensures r.Some? ==>
      && r.value == window.value.host + (guest - window.value.guest)
      && r.value + size <= window.value.host + window.value.size
  {
    if window.None? || guest < window.value.guest then None
    else
      var offset := guest - window.value.guest;
      if offset + size >= U64 || offset + size > window.value.size then None
      else Some(window.value.host + offset)
  }

  // ---- the allocator ----

  ghost predicate HasRegion(kvm: map<nat, Region>, slot: nat, region: Region) {
    slot in kvm && kvm[slot] == region
  }

  class MemorySlots {
    var next: nat
    var window: Option<Region>
    var mapped: map<nat, nat>
    var free: seq<nat>
    /** The same with the kernel's side and the history beside it. */
    ghost var book: Slots

    /** The window's record is of the region registered for it. */
    ghost predicate Valid()
      reads this
    {
      && Reached(book)
      && next == book.next && mapped == book.mapped && free == book.free
      && (window.Some? <==> book.window.Some?)
      && (window.Some? ==> HasRegion(book.kvm, book.window.value, window.value))
    }

    constructor (firstFree: nat)
      ensures Valid() && book == Fresh(firstFree) && window == None
    {
      next, window, mapped, free := firstFree, None, map[], [];
      book := Fresh(firstFree);
      ReachedFresh(firstFree);
    }

    /** `open_window`, with what the reservation and the ioctl answer. */
    method Open(guest: nat, size: nat, reserved: Option<nat>, ioctl: bool) returns (ok: bool)
      requires Valid()
      modifies this`next, this`window, this`free, this`book
      ensures Valid() && book == Opened(old(book), guest, size, reserved, ioctl)
      ensures ok <==> old(window).None? && reserved.Some? && ioctl
      ensures window == if ok then Some(Region(guest, reserved.value, size)) else old(window)
    {
      ReachedAfter(book, OpenWindow(guest, size, reserved, ioctl));
      if window.Some? || reserved.None? {
        return false;
      }
      book := Opened(book, guest, size, reserved, ioctl);
      var slot := next;
      next := next + 1;
      if !ioctl {
        free := free + [slot];
        return false;
      }
      window := Some(Region(guest, reserved.value, size));
      return true;
    }

    /** `map`. The number it registers under is not in use. */
    method Map(addr: nat, host: nat, size: nat, ioctl: bool) returns (ok: bool)
      requires Valid()
      modifies this`next, this`free, this`mapped, this`book
      ensures Valid() && book == Mapped(old(book), addr, host, size, ioctl)
      ensures ok <==> addr !in old(mapped) && ioctl
      ensures ok ==> addr in mapped && mapped[addr] !in old(book).kvm
      ensures ok ==> HasRegion(book.kvm, mapped[addr], Region(addr, host, size))
    {
      ReachedAfter(book, Op.Map(addr, host, size, ioctl));
      ReachedPick(book);
      if addr in mapped {
        return false;
      }
      book := Mapped(book, addr, host, size, ioctl);
      var slot;
      if free == [] {
        slot := next;
        next := next + 1;
      } else {
        slot := free[|free| - 1];
        free := free[..|free| - 1];
      }
      if !ioctl {
        free := free + [slot];
        return false;
      }
      mapped := mapped[addr := slot];
      return true;
    }

    /** `unmap`. When the ioctl fails the mapping is forgotten and its number is never used again. */
    method Unmap(addr: nat, ioctl: bool) returns (ok: bool)
      requires Valid()
      modifies this`free, this`mapped, this`book
      ensures Valid() && book == Unmapped(old(book), addr, ioctl)
      ensures ok <==> addr in old(mapped) && ioctl
    {
      ReachedAfter(book, Op.Unmap(addr, ioctl));
      ReachedPick(book);
      if addr !in mapped {
        return false;
      }
      book := Unmapped(book, addr, ioctl);
      var slot := mapped[addr];
      mapped := mapped - {addr};
      if !ioctl {
        return false;
      }
      free := free + [slot];
      return true;
    }

    /** `host_addr` */
    method Place(guest: nat, size: nat) returns (r: Option<nat>)
      ensures r == HostAddr(window, guest, size)
    {
      r := HostAddr(window, guest, size);
    }
  }
}
