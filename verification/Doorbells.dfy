/** Doorbells handed to the kernel, and moved when the guest moves the BAR they live in. */
module Doorbells {
  import opened Arith
  import opened Bars
  import opened PciTypes

  datatype Bell = Bell(bdf: Bdf, bar: nat, addr: nat, fd: nat)

  /** A call the kernel granted. */
  datatype Call = Register(addr: nat, fd: nat) | Unregister(addr: nat, fd: nat)

  /** What the bus thinks is registered, and every call granted so far. */
  datatype Bells = Bells(registered: seq<Bell>, calls: seq<Call>)

  function Apply(kernel: multiset<(nat, nat)>, c: Call): multiset<(nat, nat)> {
    match c
    case Register(addr, fd) => kernel + multiset{(addr, fd)}
    case Unregister(addr, fd) => kernel - multiset{(addr, fd)}
  }

  /** What the kernel answers after those calls: addresses with their descriptors. */
  function Kernel(calls: seq<Call>): multiset<(nat, nat)> {
    if calls == [] then multiset{} else Apply(Kernel(calls[..|calls| - 1]), calls[|calls| - 1])
  }

  lemma KernelAfter(calls: seq<Call>, c: Call)
    ensures Kernel(calls + [c]) == Apply(Kernel(calls), c)
  {
    assert (calls + [c])[..|calls|] == calls;
  }

  /** What the kernel will answer to each call, by address and descriptor. */
  datatype Answers = Answers(register: (nat, nat) -> bool, unregister: (nat, nat) -> bool)

  function Minus(a: nat, b: nat): nat {
    if a < b then 0 else a - b
  }

  // ---- registering and moving ----

  /** One doorbell of a new device. A refused one is served the ordinary way. */
  function RegisterOne(b: Bells, bdf: Bdf, d: Door, bars: map<nat, Bar>, ans: Answers): Bells {
    if d.bar !in bars || !ans.register(bars[d.bar].addr + d.offset, d.fd) then b
    else
      var addr := bars[d.bar].addr + d.offset;
      Bells(b.registered + [Bell(bdf, d.bar, addr, d.fd)], b.calls + [Register(addr, d.fd)])
  }

  /** The first `n` of them. */
  function Registered(b: Bells, bdf: Bdf, doors: seq<Door>, bars: map<nat, Bar>, ans: Answers, n: nat): Bells
    requires n <= |doors|
  {
    if n == 0 then b
    else RegisterOne(Registered(b, bdf, doors, bars, ans, n - 1), bdf, doors[n - 1], bars, ans)
  }

  /** Where a doorbell goes with its BAR: its distance from the old base, from the new one. */
  function MovedTo(e: Bell, bdf: Bdf, bar: nat, from: nat, to: nat): nat {
    if e.bdf == bdf && e.bar == bar then to + Minus(e.addr, from) else e.addr
  }

  /** One entry: taken from the kernel, given back at its new address, and only then recorded. */
  function MoveOne(b: Bells, i: nat, to: nat, ans: Answers): Bells
    requires i < |b.registered|
  {
    var e := b.registered[i];
    if to == e.addr then b
    else
      var left := if ans.unregister(e.addr, e.fd) then b.calls + [Unregister(e.addr, e.fd)] else b.calls;
      if ans.register(to, e.fd) then Bells(b.registered[i := e.(addr := to)], left + [Register(to, e.fd)])
      else Bells(b.registered, left)
  }

  /** One entry, left alone unless it is of the BAR that moved. */
  function Follow(b: Bells, i: nat, bdf: Bdf, bar: nat, from: nat, to: nat, ans: Answers): Bells
    requires i < |b.registered|
  {
    var e := b.registered[i];
    if e.bdf == bdf && e.bar == bar then MoveOne(b, i, to + Minus(e.addr, from), ans) else b
  }

  /** The first `n` entries. */
  function Moved(b: Bells, bdf: Bdf, bar: nat, from: nat, to: nat, ans: Answers, n: nat): (r: Bells)
    requires n <= |b.registered|
    ensures |r.registered| == |b.registered|
  {
    if n == 0 then b
    else Follow(Moved(b, bdf, bar, from, to, ans, n - 1), n - 1, bdf, bar, from, to, ans)
  }

  lemma MovedStep(b: Bells, bdf: Bdf, bar: nat, from: nat, to: nat, ans: Answers, n: nat)
    requires n < |b.registered|
    ensures Moved(b, bdf, bar, from, to, ans, n + 1)
         == Follow(Moved(b, bdf, bar, from, to, ans, n), n, bdf, bar, from, to, ans)
  {
  }

  // ---- in step with the BARs ----

  /** The doorbell is one its device declares, at its BAR's base plus the declared offset. */
  ghost predicate InPlace(devices: map<Bdf, Entry>, e: Bell) {
    && e.bdf in devices && e.bar in devices[e.bdf].bars
    && exists d :: d in devices[e.bdf].device.doors && d.bar == e.bar && d.fd == e.fd
         && e.addr == devices[e.bdf].bars[e.bar].addr + d.offset
  }

  ghost function Places(registered: seq<Bell>): seq<(nat, nat)> {
    seq(|registered|, i requires 0 <= i < |registered| => (registered[i].addr, registered[i].fd))
  }

  ghost predicate AllInPlace(devices: map<Bdf, Entry>, registered: seq<Bell>) {
    forall i :: 0 <= i < |registered| ==> InPlace(devices, registered[i])
  }

  ghost predicate Exact(calls: seq<Call>, registered: seq<Bell>) {
    Kernel(calls) == multiset(Places(registered))
  }

  /** Every doorbell is in place, and the kernel has exactly those: nothing stale, nothing missing. */
  ghost predicate InStep(devices: map<Bdf, Entry>, b: Bells) {
    AllInPlace(devices, b.registered) && Exact(b.calls, b.registered)
  }

  // ---- a new device ----

  lemma RegisterExact(calls: seq<Call>, registered: seq<Bell>, e: Bell)
    requires Exact(calls, registered)
    ensures Exact(calls + [Register(e.addr, e.fd)], registered + [e])
  {
    assert Places(registered + [e]) == Places(registered) + [(e.addr, e.fd)];
    KernelAfter(calls, Register(e.addr, e.fd));
  }

  lemma OneMoreInPlace(devices: map<Bdf, Entry>, registered: seq<Bell>, e: Bell, d: Door)
    requires AllInPlace(devices, registered) && e.bdf in devices && e.bar in devices[e.bdf].bars
    requires d in devices[e.bdf].device.doors && d.bar == e.bar && d.fd == e.fd
    requires e.addr == devices[e.bdf].bars[e.bar].addr + d.offset
    ensures AllInPlace(devices, registered + [e])
  {
    assert InPlace(devices, e);
  }

  lemma OneMoreInStep(devices: map<Bdf, Entry>, b: Bells, e: Bell, d: Door)
    requires InStep(devices, b) && e.bdf in devices && e.bar in devices[e.bdf].bars
    requires d in devices[e.bdf].device.doors && d.bar == e.bar && d.fd == e.fd
    requires e.addr == devices[e.bdf].bars[e.bar].addr + d.offset
    ensures InStep(devices, Bells(b.registered + [e], b.calls + [Register(e.addr, e.fd)]))
  {
    OneMoreInPlace(devices, b.registered, e, d);
    RegisterExact(b.calls, b.registered, e);
  }

  lemma RegisterOneIs(b: Bells, d: Door, e: Bell, bars: map<nat, Bar>, ans: Answers)
    requires d.bar in bars && e == Bell(e.bdf, d.bar, bars[d.bar].addr + d.offset, d.fd)
    ensures RegisterOne(b, e.bdf, d, bars, ans)
         == if ans.register(e.addr, e.fd) then Bells(b.registered + [e], b.calls + [Register(e.addr, e.fd)]) else b
  {
  }

  lemma RegisterOneInStep(devices: map<Bdf, Entry>, b: Bells, bdf: Bdf, d: Door, ans: Answers)
    requires InStep(devices, b) && bdf in devices && d in devices[bdf].device.doors
    ensures InStep(devices, RegisterOne(b, bdf, d, devices[bdf].bars, ans))
  {
    var bars := devices[bdf].bars;
    if d.bar in bars {
      var e := Bell(bdf, d.bar, bars[d.bar].addr + d.offset, d.fd);
      OneMoreInStep(devices, b, e, d);
      RegisterOneIs(b, d, e, bars, ans);
    }
  }

  lemma {:induction false} RegisteredInStep(devices: map<Bdf, Entry>, b: Bells, bdf: Bdf, ans: Answers, n: nat)
    requires InStep(devices, b) && bdf in devices && n <= |devices[bdf].device.doors|
    ensures InStep(devices, Registered(b, bdf, devices[bdf].device.doors, devices[bdf].bars, ans, n))
  {
    if n > 0 {
      RegisteredInStep(devices, b, bdf, ans, n - 1);
      var doors := devices[bdf].device.doors;
      RegisterOneInStep(devices, Registered(b, bdf, doors, devices[bdf].bars, ans, n - 1), bdf, doors[n - 1], ans);
    }
  }

  // ---- a moved BAR ----

  /** The devices after one BAR moved. */
  function WithBase(devices: map<Bdf, Entry>, bdf: Bdf, bar: nat, to: nat): map<Bdf, Entry>
    requires bdf in devices && bar in devices[bdf].bars
  {
    var entry := devices[bdf];
    devices[bdf := entry.(bars := entry.bars[bar := entry.bars[bar].(addr := to)])]
  }

  predicate Mine(e: Bell, bdf: Bdf, bar: nat) {
    e.bdf == bdf && e.bar == bar
  }

  /** The record of an entry after the move: at its new address if the kernel took it there. */
  function Landed(e: Bell, bdf: Bdf, bar: nat, from: nat, to: nat, ans: Answers): Bell {
    var there := MovedTo(e, bdf, bar, from, to);
    if Mine(e, bdf, bar) && ans.register(there, e.fd) then e.(addr := there) else e
  }

  lemma FollowIsLanded(b: Bells, i: nat, bdf: Bdf, bar: nat, from: nat, to: nat, ans: Answers)
    requires i < |b.registered|
    ensures Follow(b, i, bdf, bar, from, to, ans).registered
         == b.registered[i := Landed(b.registered[i], bdf, bar, from, to, ans)]
  {
  }

  ghost predicate LandedBelow(
    b: Bells, bdf: Bdf, bar: nat, from: nat, to: nat, ans: Answers, n: nat, r: seq<Bell>)
  {
    && |r| == |b.registered|
    && (forall i :: 0 <= i < |r| && i < n ==> r[i] == Landed(b.registered[i], bdf, bar, from, to, ans))
    && (forall i :: 0 <= i < |r| && n <= i ==> r[i] == b.registered[i])
  }

  lemma BelowStep(b: Bells, bdf: Bdf, bar: nat, from: nat, to: nat, ans: Answers, n: nat, r: seq<Bell>)
    requires LandedBelow(b, bdf, bar, from, to, ans, n, r) && n < |r|
    ensures LandedBelow(b, bdf, bar, from, to, ans, n + 1, r[n := Landed(r[n], bdf, bar, from, to, ans)])
  {
  }

  /** What a move makes of the records, whatever the kernel answers. */
  lemma {:induction false} MovedIsLanded(
    b: Bells, bdf: Bdf, bar: nat, from: nat, to: nat, ans: Answers, n: nat, r: Bells)
    requires n <= |b.registered| && r == Moved(b, bdf, bar, from, to, ans, n)
    ensures LandedBelow(b, bdf, bar, from, to, ans, n, r.registered)
  {
    if n > 0 {
      var before := Moved(b, bdf, bar, from, to, ans, n - 1);
      MovedIsLanded(b, bdf, bar, from, to, ans, n - 1, before);
      MovedStep(b, bdf, bar, from, to, ans, n - 1);
      FollowIsLanded(before, n - 1, bdf, bar, from, to, ans);
      BelowStep(b, bdf, bar, from, to, ans, n - 1, before.registered);
    }
  }

  // ---- the kernel's side of a move ----

  /** Every new registration among the first `n` entries is granted. */
  ghost predicate Taken(b: Bells, bdf: Bdf, bar: nat, from: nat, to: nat, ans: Answers, n: nat) {
    forall i :: 0 <= i < |b.registered| && i < n && Mine(b.registered[i], bdf, bar) ==>
      ans.register(MovedTo(b.registered[i], bdf, bar, from, to), b.registered[i].fd)
  }

  /** The entry stays behind in the kernel as well. */
  predicate LeftBehind(e: Bell, bdf: Bdf, bar: nat, from: nat, to: nat, ans: Answers) {
    Mine(e, bdf, bar) && MovedTo(e, bdf, bar, from, to) != e.addr && !ans.unregister(e.addr, e.fd)
  }

  function Stale(b: Bells, bdf: Bdf, bar: nat, from: nat, to: nat, ans: Answers, n: nat): multiset<(nat, nat)>
    requires n <= |b.registered|
  {
    if n == 0 then multiset{}
    else
      var e, before := b.registered[n - 1], Stale(b, bdf, bar, from, to, ans, n - 1);
      if LeftBehind(e, bdf, bar, from, to, ans) then before + multiset{(e.addr, e.fd)} else before
  }

  /** The kernel has the records, and `stale` besides. */
  ghost predicate With(calls: seq<Call>, registered: seq<Bell>, stale: multiset<(nat, nat)>) {
    Kernel(calls) == multiset(Places(registered)) + stale
  }

  lemma PlacesUpdate(registered: seq<Bell>, i: nat, to: nat)
    requires i < |registered|
    ensures var e := registered[i];
      && (e.addr, e.fd) in multiset(Places(registered))
      && multiset(Places(registered[i := e.(addr := to)]))
         == multiset(Places(registered)) - multiset{(e.addr, e.fd)} + multiset{(to, e.fd)}
  {
    var e, p := registered[i], Places(registered);
    assert Places(registered[i := e.(addr := to)]) == p[i := (to, e.fd)];
    assert p[i] == (e.addr, e.fd) && p[i] in p;
    assert multiset(p[i := (to, e.fd)]) == multiset(p) - multiset{p[i]} + multiset{(to, e.fd)};
  }

  lemma MoveClean(calls: seq<Call>, registered: seq<Bell>, i: nat, to: nat, stale: multiset<(nat, nat)>)
    requires With(calls, registered, stale) && i < |registered|
    ensures var e := registered[i];
      With(calls + [Unregister(e.addr, e.fd)] + [Register(to, e.fd)], registered[i := e.(addr := to)], stale)
  {
    var e := registered[i];
    PlacesUpdate(registered, i, to);
    KernelAfter(calls, Unregister(e.addr, e.fd));
    KernelAfter(calls + [Unregister(e.addr, e.fd)], Register(to, e.fd));
  }

  lemma MoveStale(calls: seq<Call>, registered: seq<Bell>, i: nat, to: nat, stale: multiset<(nat, nat)>)
    requires With(calls, registered, stale) && i < |registered|
    ensures var e := registered[i];
      With(calls + [Register(to, e.fd)], registered[i := e.(addr := to)], stale + multiset{(e.addr, e.fd)})
  {
    PlacesUpdate(registered, i, to);
    KernelAfter(calls, Register(to, registered[i].fd));
  }

  lemma FollowMoves(b: Bells, i: nat, bdf: Bdf, bar: nat, from: nat, to: nat, ans: Answers, there: nat)
    requires i < |b.registered| && Mine(b.registered[i], bdf, bar)
    requires there == MovedTo(b.registered[i], bdf, bar, from, to) && ans.register(there, b.registered[i].fd)
    requires there != b.registered[i].addr
    ensures var e, r := b.registered[i], Follow(b, i, bdf, bar, from, to, ans);
      && r.registered == b.registered[i := e.(addr := there)]
      && r.calls == (if ans.unregister(e.addr, e.fd) then b.calls + [Unregister(e.addr, e.fd)] else b.calls)
                    + [Register(there, e.fd)]
  {
  }

  lemma FollowStays(b: Bells, i: nat, bdf: Bdf, bar: nat, from: nat, to: nat, ans: Answers)
    requires i < |b.registered|
    requires var e := b.registered[i]; !Mine(e, bdf, bar) || MovedTo(e, bdf, bar, from, to) == e.addr
    ensures Follow(b, i, bdf, bar, from, to, ans) == b
  {
  }

  lemma FollowWith(b: Bells, i: nat, bdf: Bdf, bar: nat, from: nat, to: nat, ans: Answers,
                   stale: multiset<(nat, nat)>, r: Bells)
    requires i < |b.registered| && With(b.calls, b.registered, stale) && r == Follow(b, i, bdf, bar, from, to, ans)
    requires var e := b.registered[i]; Mine(e, bdf, bar) ==> ans.register(MovedTo(e, bdf, bar, from, to), e.fd)
    ensures var e := b.registered[i];
      With(r.calls, r.registered,
           if LeftBehind(e, bdf, bar, from, to, ans) then stale + multiset{(e.addr, e.fd)} else stale)
  {
    var e := b.registered[i];
    var there := MovedTo(e, bdf, bar, from, to);
    if !Mine(e, bdf, bar) || there == e.addr {
      FollowStays(b, i, bdf, bar, from, to, ans);
    } else {
      FollowMoves(b, i, bdf, bar, from, to, ans, there);
      if ans.unregister(e.addr, e.fd) {
        MoveClean(b.calls, b.registered, i, there, stale);
      } else {
        MoveStale(b.calls, b.registered, i, there, stale);
      }
    }
  }

  /** If every new registration is granted, the kernel has the records and whatever it kept. */
  lemma {:induction false} MovedWith(
    b: Bells, bdf: Bdf, bar: nat, from: nat, to: nat, ans: Answers, n: nat, r: Bells)
    requires n <= |b.registered| && Exact(b.calls, b.registered) && Taken(b, bdf, bar, from, to, ans, n)
    requires r == Moved(b, bdf, bar, from, to, ans, n)
    ensures With(r.calls, r.registered, Stale(b, bdf, bar, from, to, ans, n))
  {
    if n > 0 {
      var before := Moved(b, bdf, bar, from, to, ans, n - 1);
      MovedWith(b, bdf, bar, from, to, ans, n - 1, before);
      MovedIsLanded(b, bdf, bar, from, to, ans, n - 1, before);
      assert before.registered[n - 1] == b.registered[n - 1];
      FollowWith(before, n - 1, bdf, bar, from, to, ans, Stale(b, bdf, bar, from, to, ans, n - 1), r);
    }
  }

  lemma {:induction false} StaleIff(b: Bells, bdf: Bdf, bar: nat, from: nat, to: nat, ans: Answers, n: nat)
    requires n <= |b.registered|
    ensures Stale(b, bdf, bar, from, to, ans, n) == multiset{}
      <==> forall i :: 0 <= i < n ==> !LeftBehind(b.registered[i], bdf, bar, from, to, ans)
  {
    if n > 0 {
      StaleIff(b, bdf, bar, from, to, ans, n - 1);
      var e := b.registered[n - 1];
      assert LeftBehind(e, bdf, bar, from, to, ans) ==>
        (e.addr, e.fd) in Stale(b, bdf, bar, from, to, ans, n);
    }
  }

  // ---- exactly when a move takes the doorbells along ----

  /** The two calls made for each doorbell of the BAR are both granted. */
  ghost predicate CallsGranted(b: Bells, bdf: Bdf, bar: nat, from: nat, to: nat, ans: Answers) {
    forall i :: 0 <= i < |b.registered| && Mine(b.registered[i], bdf, bar) ==>
      var e := b.registered[i];
      ans.unregister(e.addr, e.fd) && ans.register(MovedTo(e, bdf, bar, from, to), e.fd)
  }

  lemma StaysInPlace(devices: map<Bdf, Entry>, e: Bell, bdf: Bdf, bar: nat, to: nat)
    requires InPlace(devices, e) && bdf in devices && bar in devices[bdf].bars
    ensures var from := devices[bdf].bars[bar].addr;
      InPlace(WithBase(devices, bdf, bar, to), e.(addr := MovedTo(e, bdf, bar, from, to)))
  {
    var from := devices[bdf].bars[bar].addr;
    var after := WithBase(devices, bdf, bar, to);
    var d :| d in devices[e.bdf].device.doors && d.bar == e.bar && d.fd == e.fd
      && e.addr == devices[e.bdf].bars[e.bar].addr + d.offset;
    assert d in after[e.bdf].device.doors;
    assert MovedTo(e, bdf, bar, from, to) == after[e.bdf].bars[e.bar].addr + d.offset;
  }

  /** The doorbells of a BAR are inside it. */
  ghost predicate DoorsInside(e: Entry, bar: nat)
    requires bar in e.bars
  {
    forall d :: d in e.device.doors && d.bar == bar ==> d.offset < e.bars[bar].size
  }

  /** A BAR that can move: aligned at both ends, with its doorbells inside it. */
  ghost predicate Moves(devices: map<Bdf, Entry>, bdf: Bdf, bar: nat, to: nat) {
    && bdf in devices && bar in devices[bdf].bars && DoorsInside(devices[bdf], bar)
    && var b := devices[bdf].bars[bar]; to != b.addr && b.addr % b.size == 0 && to % b.size == 0
  }

  /** A doorbell left where it was is not in place after the move: no doorbell of the BAR is there. */
  lemma LeftIsOutOfPlace(devices: map<Bdf, Entry>, e: Bell, bdf: Bdf, bar: nat, to: nat)
    requires InPlace(devices, e) && Moves(devices, bdf, bar, to) && Mine(e, bdf, bar)
    ensures devices[bdf].bars[bar].addr <= e.addr && MovedTo(e, bdf, bar, devices[bdf].bars[bar].addr, to) != e.addr
    ensures !InPlace(WithBase(devices, bdf, bar, to), e)
  {
    var after, b := WithBase(devices, bdf, bar, to), devices[bdf].bars[bar];
    var d :| d in devices[bdf].device.doors && d.bar == bar && d.fd == e.fd && e.addr == b.addr + d.offset;
    assert b.addr + b.size <= to || to + b.size <= b.addr by {
      if b.addr < to { MultiplesApart(b.addr, to, b.size); } else { MultiplesApart(to, b.addr, b.size); }
    }
    forall x | x in after[bdf].device.doors && x.bar == bar ensures e.addr != to + x.offset {
      assert x in devices[bdf].device.doors;
    }
  }

  lemma LandsInPlaceIff(devices: map<Bdf, Entry>, e: Bell, bdf: Bdf, bar: nat, to: nat, ans: Answers)
    requires InPlace(devices, e) && Moves(devices, bdf, bar, to)
    ensures var from := devices[bdf].bars[bar].addr;
      InPlace(WithBase(devices, bdf, bar, to), Landed(e, bdf, bar, from, to, ans)) <==>
      (Mine(e, bdf, bar) ==> ans.register(MovedTo(e, bdf, bar, from, to), e.fd))
  {
    StaysInPlace(devices, e, bdf, bar, to);
    if Mine(e, bdf, bar) {
      LeftIsOutOfPlace(devices, e, bdf, bar, to);
    }
  }

  /** Records are all in place after a move if and only if every new registration is granted. */
  lemma RecordsFollowIff(devices: map<Bdf, Entry>, b: Bells, bdf: Bdf, bar: nat, to: nat, ans: Answers)
    requires InStep(devices, b) && Moves(devices, bdf, bar, to)
    ensures var from := devices[bdf].bars[bar].addr;
      AllInPlace(WithBase(devices, bdf, bar, to), Moved(b, bdf, bar, from, to, ans, |b.registered|).registered) <==>
      Taken(b, bdf, bar, from, to, ans, |b.registered|)
  {
    var from, n := devices[bdf].bars[bar].addr, |b.registered|;
    var after, r := WithBase(devices, bdf, bar, to), Moved(b, bdf, bar, from, to, ans, n).registered;
    MovedIsLanded(b, bdf, bar, from, to, ans, n, Moved(b, bdf, bar, from, to, ans, n));
    forall i | 0 <= i < n
      ensures InPlace(after, r[i])
        <==> (Mine(b.registered[i], bdf, bar) ==>
                ans.register(MovedTo(b.registered[i], bdf, bar, from, to), b.registered[i].fd))
    {
      LandsInPlaceIff(devices, b.registered[i], bdf, bar, to, ans);
    }
  }

  /** And then the kernel has exactly them if and only if every old one was given up. */
  lemma KernelFollowsIff(devices: map<Bdf, Entry>, b: Bells, bdf: Bdf, bar: nat, to: nat, ans: Answers)
    requires InStep(devices, b) && Moves(devices, bdf, bar, to)
    requires Taken(b, bdf, bar, devices[bdf].bars[bar].addr, to, ans, |b.registered|)
    ensures var from := devices[bdf].bars[bar].addr;
      var r := Moved(b, bdf, bar, from, to, ans, |b.registered|);
      Exact(r.calls, r.registered) <==> CallsGranted(b, bdf, bar, from, to, ans)
  {
    var from, n := devices[bdf].bars[bar].addr, |b.registered|;
    var r := Moved(b, bdf, bar, from, to, ans, n);
    MovedWith(b, bdf, bar, from, to, ans, n, r);
    StaleIff(b, bdf, bar, from, to, ans, n);
    forall i | 0 <= i < n && Mine(b.registered[i], bdf, bar)
      ensures LeftBehind(b.registered[i], bdf, bar, from, to, ans)
        <==> !ans.unregister(b.registered[i].addr, b.registered[i].fd)
    {
      LeftIsOutOfPlace(devices, b.registered[i], bdf, bar, to);
    }
    assert CallsGranted(b, bdf, bar, from, to, ans)
      <==> forall i :: 0 <= i < n ==> !LeftBehind(b.registered[i], bdf, bar, from, to, ans);
  }

  /** Doorbells follow their BAR exactly when the kernel grants both calls made for each of them. */
  lemma MoveFollowsIff(devices: map<Bdf, Entry>, b: Bells, bdf: Bdf, bar: nat, to: nat, ans: Answers)
    requires InStep(devices, b) && Moves(devices, bdf, bar, to)
    ensures var from := devices[bdf].bars[bar].addr;
      InStep(WithBase(devices, bdf, bar, to), Moved(b, bdf, bar, from, to, ans, |b.registered|)) <==>
      CallsGranted(b, bdf, bar, from, to, ans)
  {
    var from, n := devices[bdf].bars[bar].addr, |b.registered|;
    RecordsFollowIff(devices, b, bdf, bar, to, ans);
    if Taken(b, bdf, bar, from, to, ans, n) {
      KernelFollowsIff(devices, b, bdf, bar, to, ans);
    }
  }

  /** Wherever its doorbells are declared, a BAR that moves takes them along if the calls are granted. */
  lemma MoveKeepsStep(devices: map<Bdf, Entry>, b: Bells, bdf: Bdf, bar: nat, to: nat, ans: Answers)
    requires InStep(devices, b) && bdf in devices && bar in devices[bdf].bars
    requires CallsGranted(b, bdf, bar, devices[bdf].bars[bar].addr, to, ans)
    ensures var from := devices[bdf].bars[bar].addr;
      InStep(WithBase(devices, bdf, bar, to), Moved(b, bdf, bar, from, to, ans, |b.registered|))
  {
    var from, n := devices[bdf].bars[bar].addr, |b.registered|;
    var after, r := WithBase(devices, bdf, bar, to), Moved(b, bdf, bar, from, to, ans, n);
    MovedIsLanded(b, bdf, bar, from, to, ans, n, r);
    MovedWith(b, bdf, bar, from, to, ans, n, r);
    StaleIff(b, bdf, bar, from, to, ans, n);
    forall i | 0 <= i < n ensures InPlace(after, r.registered[i]) {
      StaysInPlace(devices, b.registered[i], bdf, bar, to);
    }
  }

  // ---- when the kernel refuses ----

  /** A device whose one doorbell is at 0x300 in a BAR of 64 KiB at `base`, registered there. */
  ghost predicate Sample(devices: map<Bdf, Entry>, b: Bells, bdf: Bdf, base: nat) {
    && bdf in devices && devices[bdf].device.doors == [Door(0, 0x300, 7)]
    && 0 in devices[bdf].bars && devices[bdf].bars[0].addr == base && devices[bdf].bars[0].size == 0x1_0000
    && b == Bells([Bell(bdf, 0, base + 0x300, 7)], [Register(base + 0x300, 7)])
  }

  lemma SampleInStep(devices: map<Bdf, Entry>, b: Bells, bdf: Bdf, base: nat)
    requires Sample(devices, b, bdf, base)
    ensures InStep(devices, b)
  {
    assert Door(0, 0x300, 7) in devices[bdf].device.doors;
    assert InPlace(devices, b.registered[0]);
    assert Places(b.registered) == [(base + 0x300, 7)];
    var none: seq<Call> := [];
    KernelAfter(none, Register(base + 0x300, 7));
    assert none + [Register(base + 0x300, 7)] == b.calls;
  }

  /** One refused registration is enough to lose a doorbell's offset: the record keeps the address
      from before, and the next move, though everything in it succeeds, takes its distance from
      the wrong base. */
  lemma RefusedRegisterLosesTheOffset(devices: map<Bdf, Entry>, bells: Bells, bdf: Bdf)
    requires Sample(devices, bells, bdf, 0xC000_0000)
    ensures var refuse := Answers((addr, fd) => false, (addr, fd) => true);
      var grant := Answers((addr, fd) => true, (addr, fd) => true);
      var once := Moved(bells, bdf, 0, 0xC000_0000, 0xC001_0000, refuse, 1);
      var moved := WithBase(devices, bdf, 0, 0xC001_0000);
      && once == Bells(bells.registered, bells.calls + [Unregister(0xC000_0300, 7)]) && !InStep(moved, once)
      && Moved(once, bdf, 0, 0xC001_0000, 0xC002_0000, grant, 1)
         == Bells([Bell(bdf, 0, 0xC002_0000, 7)],
                  once.calls + [Unregister(0xC000_0300, 7)] + [Register(0xC002_0000, 7)])
  {
    var refuse := Answers((addr, fd) => false, (addr, fd) => true);
    var grant := Answers((addr, fd) => true, (addr, fd) => true);
    SampleInStep(devices, bells, bdf, 0xC000_0000);
    MoveFollowsIff(devices, bells, bdf, 0, 0xC001_0000, refuse);
    assert Mine(bells.registered[0], bdf, 0);
    MovedStep(bells, bdf, 0, 0xC000_0000, 0xC001_0000, refuse, 0);
    var once := Bells(bells.registered, bells.calls + [Unregister(0xC000_0300, 7)]);
    assert Moved(bells, bdf, 0, 0xC000_0000, 0xC001_0000, refuse, 1) == once;
    MovedStep(once, bdf, 0, 0xC001_0000, 0xC002_0000, grant, 0);
  }

  /** One refused removal leaves the kernel answering at the old address too: the record is right, and
      nothing remembers the other. */
  lemma RefusedUnregisterLeavesItStale(devices: map<Bdf, Entry>, bells: Bells, bdf: Bdf)
    requires Sample(devices, bells, bdf, 0xC000_0000)
    ensures var keep := Answers((addr, fd) => true, (addr, fd) => false);
      var once := Moved(bells, bdf, 0, 0xC000_0000, 0xC001_0000, keep, 1);
      var moved := WithBase(devices, bdf, 0, 0xC001_0000);
      && AllInPlace(moved, once.registered) && !InStep(moved, once)
      && Kernel(once.calls) == multiset{(0xC000_0300, 7), (0xC001_0300, 7)}
  {
    var keep := Answers((addr, fd) => true, (addr, fd) => false);
    SampleInStep(devices, bells, bdf, 0xC000_0000);
    MoveFollowsIff(devices, bells, bdf, 0, 0xC001_0000, keep);
    RecordsFollowIff(devices, bells, bdf, 0, 0xC001_0000, keep);
    assert Mine(bells.registered[0], bdf, 0);
    MovedStep(bells, bdf, 0, 0xC000_0000, 0xC001_0000, keep, 0);
    KernelAfter(bells.calls, Register(0xC001_0300, 7));
    assert Places(bells.registered) == [(0xC000_0300, 7)];
  }
}
