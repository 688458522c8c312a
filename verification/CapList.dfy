/** A device's 256-byte configuration space: a capability list built inside it one block at a time,
    and the few bits of it a guest can change afterwards. */
module CapList {
  import opened Wrappers
  import opened Segments

  const SIZE: nat := 256
  const CAP_LIST_HEAD: nat := 0x34
  const FIRST_CAP: nat := 0x40
  const CAP_MAX: nat := 0x100
  const MSIX_ID: Byte := 0x11

  datatype Cap = Cap(id: Byte, payload: seq<Byte>)

  /** The bytes, where the last capability starts, and where the next may. */
  datatype Config = Config(data: seq<Byte>, last: Option<nat>, next: nat)

  function NextDword(offset: nat): (r: nat)
    ensures offset <= r < offset + 4 && r % 4 == 0
  {
    (offset + 3) / 4 * 4
  }

  /** Bytes the capability takes: its identifier, its link and its payload. */
  function Length(c: Cap): nat {
    2 + |c.payload|
  }

  // ---- adding one ----

  /** What the assertions in `add_cap` let through. */
  predicate Accepts(cfg: Config, c: Cap) {
    FIRST_CAP <= cfg.next < CAP_MAX && cfg.next + Length(c) <= CAP_MAX
  }

  /** Where the offset of a new capability is recorded: in the header, or in the one before it. */
  function LinkAt(last: Option<nat>): nat {
    if last.Some? then last.value + 1 else CAP_LIST_HEAD
  }

  function ByteAfter(cfg: Config, c: Cap, k: nat): Byte
    requires |cfg.data| == SIZE && Accepts(cfg, c) && k < SIZE
  {
    if k == LinkAt(cfg.last) then cfg.next
    else if k == cfg.next then c.id
    else if k == cfg.next + 1 then 0
    else if cfg.next + 2 <= k < cfg.next + Length(c) then c.payload[k - cfg.next - 2]
    else cfg.data[k]
  }

  function Add(cfg: Config, c: Cap): Config
    requires |cfg.data| == SIZE && Accepts(cfg, c)
  {
    Config(seq<Byte>(SIZE, k requires 0 <= k < SIZE => ByteAfter(cfg, c, k)), Some(cfg.next),
           NextDword(cfg.next + Length(c)))
  }

  // ---- what a driver sees ----

  /** The offsets a driver visits following links from `pos`, as section 6.7 of PCI Local Bus 3.0
      has it do. */
  function Visit(data: seq<Byte>, pos: nat, steps: nat): seq<nat>
    decreases steps
  {
    if steps == 0 || pos == 0 || pos + 1 >= |data| then []
    else [pos] + Visit(data, data[pos + 1], steps - 1)
  }

  // ---- the list inside the bytes ----

  /** Blocks in order, each on the first dword past the one before, all inside the space. */
  ghost predicate Placed(caps: seq<Cap>, starts: seq<nat>, next: nat) {
    && |starts| == |caps|
    && (forall i :: 0 <= i < |starts| ==>
          && FIRST_CAP + 4 * i <= starts[i] && starts[i] % 4 == 0 && starts[i] + Length(caps[i]) <= CAP_MAX)
    && (forall i, j :: 0 <= i < j < |starts| ==> starts[i] + Length(caps[i]) <= starts[j])
    && (forall i :: 0 <= i < |starts| ==> starts[i] + Length(caps[i]) <= next)
    && FIRST_CAP + 4 * |starts| <= next && next % 4 == 0
  }

  /** The capability's identifier and payload are in its block. */
  ghost predicate Stored(data: seq<Byte>, c: Cap, start: nat)
    requires start + Length(c) <= |data|
  {
    data[start] == c.id && forall j :: 0 <= j < |c.payload| ==> data[start + 2 + j] == c.payload[j]
  }

  ghost predicate StoredAll(data: seq<Byte>, caps: seq<Cap>, starts: seq<nat>) {
    && |starts| == |caps|
    && forall i :: 0 <= i < |caps| ==> starts[i] + Length(caps[i]) <= |data| && Stored(data, caps[i], starts[i])
  }

  /** Each block links to the following one, the last to nothing, and the header to the first. */
  ghost predicate LinkedUp(data: seq<Byte>, starts: seq<nat>)
    requires |data| == SIZE
  {
    && (forall i :: 0 <= i < |starts| ==> 0 < starts[i] < SIZE - 1)
    && data[CAP_LIST_HEAD] == Target(starts, 0)
    && (forall i :: 0 <= i < |starts| ==> data[starts[i] + 1] == Target(starts, i + 1))
  }

  ghost function Target(starts: seq<nat>, i: nat): nat {
    if i < |starts| then starts[i] else 0
  }

  ghost predicate Holds(cfg: Config, caps: seq<Cap>, starts: seq<nat>) {
    && |cfg.data| == SIZE
    && Placed(caps, starts, cfg.next)
    && LinkedUp(cfg.data, starts)
    && StoredAll(cfg.data, caps, starts)
    && cfg.last == (if starts == [] then None else Some(starts[|starts| - 1]))
  }

  // ---- adding keeps the list ----

  lemma AddPlaces(cfg: Config, caps: seq<Cap>, starts: seq<nat>, c: Cap)
    requires |cfg.data| == SIZE && Placed(caps, starts, cfg.next) && Accepts(cfg, c)
    ensures Placed(caps + [c], starts + [cfg.next], Add(cfg, c).next)
  {
  }

  lemma AddLeaves(cfg: Config, c: Cap, k: nat)
    requires |cfg.data| == SIZE && Accepts(cfg, c) && k < cfg.next && k != LinkAt(cfg.last)
    ensures Add(cfg, c).data[k] == cfg.data[k]
  {
  }

  /** The byte the new link goes into belongs to no block's identifier or payload. */
  lemma LinkIsNoBlock(cfg: Config, caps: seq<Cap>, starts: seq<nat>, i: nat, k: nat)
    requires Holds(cfg, caps, starts) && i < |caps|
    requires starts[i] <= k < starts[i] + Length(caps[i]) && k != starts[i] + 1
    ensures LinkAt(cfg.last) != k
  {
    LastLink(cfg, caps, starts);
    var n := |starts| - 1;
    assert i < n ==> starts[i] + Length(caps[i]) <= starts[n];
  }

  lemma LastLink(cfg: Config, caps: seq<Cap>, starts: seq<nat>)
    requires Holds(cfg, caps, starts) && starts != []
    ensures LinkAt(cfg.last) == starts[|starts| - 1] + 1
  {
  }

  /** Blocks already there keep their contents. */
  lemma AddKeepsStored(cfg: Config, caps: seq<Cap>, starts: seq<nat>, c: Cap, i: nat)
    requires Holds(cfg, caps, starts) && Accepts(cfg, c) && i < |caps|
    ensures Stored(Add(cfg, c).data, caps[i], starts[i])
  {
    var data := Add(cfg, c).data;
    LinkIsNoBlock(cfg, caps, starts, i, starts[i]);
    AddLeaves(cfg, c, starts[i]);
    assert Stored(cfg.data, caps[i], starts[i]);
    forall j | 0 <= j < |caps[i].payload| ensures data[starts[i] + 2 + j] == caps[i].payload[j] {
      LinkIsNoBlock(cfg, caps, starts, i, starts[i] + 2 + j);
      AddLeaves(cfg, c, starts[i] + 2 + j);
    }
  }

  lemma AddStores(cfg: Config, caps: seq<Cap>, starts: seq<nat>, c: Cap)
    requires Holds(cfg, caps, starts) && Accepts(cfg, c)
    ensures Stored(Add(cfg, c).data, c, cfg.next)
  {
    LinkIsBefore(cfg, caps, starts);
  }

  lemma LinkIsBefore(cfg: Config, caps: seq<Cap>, starts: seq<nat>)
    requires Holds(cfg, caps, starts)
    ensures LinkAt(cfg.last) < cfg.next
  {
  }

  lemma NewLink(cfg: Config, c: Cap)
    requires |cfg.data| == SIZE && Accepts(cfg, c) && LinkAt(cfg.last) < cfg.next
    ensures Add(cfg, c).data[LinkAt(cfg.last)] == cfg.next && Add(cfg, c).data[cfg.next + 1] == 0
  {
  }

  lemma EarlierBlock(caps: seq<Cap>, starts: seq<nat>, next: nat, i: nat)
    requires Placed(caps, starts, next) && i + 1 < |starts|
    ensures starts[i] + 2 <= starts[|starts| - 1]
  {
    assert starts[i] + Length(caps[i]) <= starts[|starts| - 1];
  }

  lemma EarlierLinkStays(cfg: Config, caps: seq<Cap>, starts: seq<nat>, c: Cap, i: nat)
    requires Holds(cfg, caps, starts) && Accepts(cfg, c) && i + 1 < |starts|
    ensures Add(cfg, c).data[starts[i] + 1] == starts[i + 1]
  {
    LinkIsBefore(cfg, caps, starts);
    LastLink(cfg, caps, starts);
    EarlierBlock(caps, starts, cfg.next, i);
    AddLeaves(cfg, c, starts[i] + 1);
  }

  lemma LinkAfter(cfg: Config, caps: seq<Cap>, starts: seq<nat>, c: Cap, i: nat)
    requires Holds(cfg, caps, starts) && Accepts(cfg, c) && i <= |starts|
    ensures var all := starts + [cfg.next]; Add(cfg, c).data[all[i] + 1] == Target(all, i + 1)
  {
    LinkIsBefore(cfg, caps, starts);
    NewLink(cfg, c);
    if i + 1 < |starts| {
      EarlierLinkStays(cfg, caps, starts, c, i);
    } else if i < |starts| {
      LastLink(cfg, caps, starts);
    }
  }

  lemma HeadAfter(cfg: Config, caps: seq<Cap>, starts: seq<nat>, c: Cap)
    requires Holds(cfg, caps, starts) && Accepts(cfg, c)
    ensures Add(cfg, c).data[CAP_LIST_HEAD] == Target(starts + [cfg.next], 0)
  {
    LinkIsBefore(cfg, caps, starts);
    NewLink(cfg, c);
    if starts != [] {
      LastLink(cfg, caps, starts);
      AddLeaves(cfg, c, CAP_LIST_HEAD);
    }
  }

  lemma AddLinks(cfg: Config, caps: seq<Cap>, starts: seq<nat>, c: Cap)
    requires Holds(cfg, caps, starts) && Accepts(cfg, c)
    ensures LinkedUp(Add(cfg, c).data, starts + [cfg.next])
  {
    HeadAfter(cfg, caps, starts, c);
    forall i | 0 <= i <= |starts|
      ensures Add(cfg, c).data[(starts + [cfg.next])[i] + 1] == Target(starts + [cfg.next], i + 1)
    {
      LinkAfter(cfg, caps, starts, c, i);
    }
  }

  lemma AddStoresAll(cfg: Config, caps: seq<Cap>, starts: seq<nat>, c: Cap)
    requires Holds(cfg, caps, starts) && Accepts(cfg, c)
    ensures StoredAll(Add(cfg, c).data, caps + [c], starts + [cfg.next])
  {
    AddStores(cfg, caps, starts, c);
    forall i | 0 <= i < |caps| ensures Stored(Add(cfg, c).data, caps[i], starts[i]) {
      AddKeepsStored(cfg, caps, starts, c, i);
    }
  }

  lemma AddKeepsList(cfg: Config, caps: seq<Cap>, starts: seq<nat>, c: Cap)
    requires Holds(cfg, caps, starts) && Accepts(cfg, c)
    ensures Holds(Add(cfg, c), caps + [c], starts + [cfg.next])
  {
    AddPlaces(cfg, caps, starts, c);
    AddLinks(cfg, caps, starts, c);
    AddStoresAll(cfg, caps, starts, c);
  }

  // ---- every sequence of capabilities ----

  /** Where each capability goes, from the lengths of those before it alone. */
  function Start(caps: seq<Cap>, i: nat): (r: nat)
    requires i <= |caps|
    ensures r % 4 == 0
  {
    if i == 0 then FIRST_CAP else NextDword(Start(caps, i - 1) + Length(caps[i - 1]))
  }

  function Starts(caps: seq<Cap>, n: nat): seq<nat>
    requires n <= |caps|
  {
    seq(n, i requires 0 <= i < n => Start(caps, i))
  }

  /** The configuration after `n` calls, unless an assertion in one of them failed. */
  function Built(header: seq<Byte>, caps: seq<Cap>, n: nat): (r: Option<Config>)
    requires |header| == SIZE && n <= |caps|
    ensures r.Some? ==> |r.value.data| == SIZE && r.value.next == Start(caps, n)
  {
    if n == 0 then Some(Config(header, None, FIRST_CAP))
    else match Built(header, caps, n - 1)
      case None => None
      case Some(cfg) => if Accepts(cfg, caps[n - 1]) then Some(Add(cfg, caps[n - 1])) else None
  }

  lemma {:induction false} StartsGrow(caps: seq<Cap>, i: nat)
    requires i <= |caps|
    ensures Start(caps, i) >= FIRST_CAP + 4 * i
  {
    if i > 0 {
      StartsGrow(caps, i - 1);
    }
  }

  ghost predicate Fit(caps: seq<Cap>, n: nat)
    requires n <= |caps|
  {
    forall i :: 0 <= i < n ==> Start(caps, i) + Length(caps[i]) <= CAP_MAX
  }

  lemma StepAccepted(header: seq<Byte>, caps: seq<Cap>, n: nat)
    requires |header| == SIZE && 0 < n <= |caps|
    ensures Built(header, caps, n).Some? <==>
      Built(header, caps, n - 1).Some? && Start(caps, n - 1) + Length(caps[n - 1]) <= CAP_MAX
  {
    StartsGrow(caps, n - 1);
  }

  /** The calls are accepted exactly when every block fits. */
  lemma {:induction false} AcceptedIffFits(header: seq<Byte>, caps: seq<Cap>, n: nat)
    requires |header| == SIZE && n <= |caps|
    ensures Built(header, caps, n).Some? <==> Fit(caps, n)
  {
    if n > 0 {
      AcceptedIffFits(header, caps, n - 1);
      StepAccepted(header, caps, n);
      assert Fit(caps, n) <==> Fit(caps, n - 1) && Start(caps, n - 1) + Length(caps[n - 1]) <= CAP_MAX;
    }
  }

  ghost predicate BuiltOk(header: seq<Byte>, caps: seq<Cap>, n: nat)
    requires |header| == SIZE && n <= |caps|
  {
    Built(header, caps, n).Some? ==> Holds(Built(header, caps, n).value, caps[..n], Starts(caps, n))
  }

  lemma SameList(cfg: Config, caps: seq<Cap>, starts: seq<nat>, caps2: seq<Cap>, starts2: seq<nat>)
    requires Holds(cfg, caps, starts) && caps == caps2 && starts == starts2
    ensures Holds(cfg, caps2, starts2)
  {
  }

  lemma OneMore(caps: seq<Cap>, n: nat)
    requires 0 < n <= |caps|
    ensures caps[..n] == caps[..n - 1] + [caps[n - 1]]
    ensures Starts(caps, n) == Starts(caps, n - 1) + [Start(caps, n - 1)]
  {
  }

  lemma StepHolds(before: Config, caps: seq<Cap>, n: nat)
    requires 0 < n <= |caps| && before.next == Start(caps, n - 1)
    requires Holds(before, caps[..n - 1], Starts(caps, n - 1)) && Accepts(before, caps[n - 1])
    ensures Holds(Add(before, caps[n - 1]), caps[..n], Starts(caps, n))
  {
    var front, starts, c := caps[..n - 1], Starts(caps, n - 1), caps[n - 1];
    AddKeepsList(before, front, starts, c);
    OneMore(caps, n);
    SameList(Add(before, c), front + [c], starts + [before.next], caps[..n], Starts(caps, n));
  }

  /** The list is in the bytes, as it was added: in order, on dwords, apart, inside the space, with
      identifiers and payloads intact. */
  lemma {:induction false} BuiltHolds(header: seq<Byte>, caps: seq<Cap>, n: nat)
    requires |header| == SIZE && header[CAP_LIST_HEAD] == 0 && n <= |caps|
    ensures BuiltOk(header, caps, n)
  {
    if n > 0 && Built(header, caps, n).Some? {
      BuiltHolds(header, caps, n - 1);
      StepHolds(Built(header, caps, n - 1).value, caps, n);
    }
  }

  lemma {:induction false} VisitFrom(data: seq<Byte>, starts: seq<nat>, i: nat, steps: nat)
    requires |data| == SIZE && LinkedUp(data, starts) && i <= |starts| && steps >= |starts| - i
    ensures Visit(data, Target(starts, i), steps) == starts[i..]
    decreases steps
  {
    if i < |starts| {
      VisitFrom(data, starts, i + 1, steps - 1);
      assert starts[i..] == [starts[i]] + starts[i + 1..];
    }
  }

  /** Far more steps than a space of this size can need. */
  const STEPS: nat := 64

  lemma FewBlocks(caps: seq<Cap>, starts: seq<nat>, next: nat)
    requires Placed(caps, starts, next)
    ensures |starts| <= STEPS
  {
    var n := |starts|;
    assert n > 0 ==> FIRST_CAP + 4 * (n - 1) <= starts[n - 1] < CAP_MAX;
  }

  lemma WalkOf(data: seq<Byte>, caps: seq<Cap>, starts: seq<nat>, next: nat)
    requires |data| == SIZE && LinkedUp(data, starts) && Placed(caps, starts, next)
    ensures Visit(data, data[CAP_LIST_HEAD], STEPS) == starts
  {
    FewBlocks(caps, starts, next);
    VisitFrom(data, starts, 0, STEPS);
  }

  /** A driver that follows the links visits exactly the added capabilities, in order, and stops. */
  lemma WalkVisitsAll(header: seq<Byte>, caps: seq<Cap>)
    requires |header| == SIZE && header[CAP_LIST_HEAD] == 0
    requires Built(header, caps, |caps|).Some?
    ensures var data := Built(header, caps, |caps|).value.data;
      Visit(data, data[CAP_LIST_HEAD], STEPS) == Starts(caps, |caps|)
  {
    BuiltHolds(header, caps, |caps|);
    var cfg := Built(header, caps, |caps|).value;
    assert caps[..|caps|] == caps;
    WalkOf(cfg.data, caps, Starts(caps, |caps|), cfg.next);
  }

  // ---- what a guest can change ----

  /** The two writable bits of Message Control, in its high byte: enable and function mask. */
  function Masked(was: Byte, written: Byte): Byte {
    was % 64 + written / 64 * 64
  }

  /** The effect of a configuration write on a device whose MSI-X capability is at `cap`. */
  function Written(data: seq<Byte>, cap: nat, offset: nat, bytes: seq<Byte>): seq<Byte>
    requires cap + 3 < |data|
  {
    if offset <= cap + 3 < offset + |bytes| then
      data[cap + 3 := Masked(data[cap + 3], bytes[cap + 3 - offset])]
    else data
  }

  datatype Write = Write(offset: nat, bytes: seq<Byte>)

  function WrittenAll(data: seq<Byte>, cap: nat, writes: seq<Write>, n: nat): (r: seq<Byte>)
    requires cap + 3 < |data| && n <= |writes|
    ensures |r| == |data|
  {
    if n == 0 then data
    else Written(WrittenAll(data, cap, writes, n - 1), cap, writes[n - 1].offset, writes[n - 1].bytes)
  }

  lemma WriteTouchesOneByte(data: seq<Byte>, cap: nat, offset: nat, bytes: seq<Byte>)
    requires cap + 3 < |data|
    ensures var after := Written(data, cap, offset, bytes);
      && |after| == |data| && after[cap + 3] % 64 == data[cap + 3] % 64
      && forall k :: 0 <= k < |data| && k != cap + 3 ==> after[k] == data[k]
  {
  }

  lemma {:induction false} WritesTouchOneByte(data: seq<Byte>, cap: nat, writes: seq<Write>, n: nat)
    requires cap + 3 < |data| && n <= |writes|
    ensures var after := WrittenAll(data, cap, writes, n);
      && after[cap + 3] % 64 == data[cap + 3] % 64
      && forall k :: 0 <= k < |data| && k != cap + 3 ==> after[k] == data[k]
  {
    if n > 0 {
      WritesTouchOneByte(data, cap, writes, n - 1);
      WriteTouchesOneByte(WrittenAll(data, cap, writes, n - 1), cap, writes[n - 1].offset, writes[n - 1].bytes);
    }
  }

  lemma WritesKeepLinks(cfg: Config, caps: seq<Cap>, starts: seq<nat>, m: nat, after: seq<Byte>)
    requires Holds(cfg, caps, starts) && m < |caps| && |caps[m].payload| >= 2
    requires |after| == SIZE && forall k :: 0 <= k < SIZE && k != starts[m] + 3 ==> after[k] == cfg.data[k]
    ensures LinkedUp(after, starts)
  {
    forall i | 0 <= i < |starts| ensures after[starts[i] + 1] == cfg.data[starts[i] + 1] {
      BlocksApart(cfg, caps, starts, i, starts[i] + 1, m, starts[m] + 3);
    }
  }

  lemma BlocksApart(cfg: Config, caps: seq<Cap>, starts: seq<nat>, i: nat, k: nat, m: nat, l: nat)
    requires Holds(cfg, caps, starts) && i < |caps| && m < |caps|
    requires starts[i] <= k < starts[i] + Length(caps[i]) && starts[m] <= l < starts[m] + Length(caps[m])
    ensures i != m ==> k != l
  {
  }

  lemma WritesKeepStored(cfg: Config, caps: seq<Cap>, starts: seq<nat>, m: nat, after: seq<Byte>, i: nat)
    requires Holds(cfg, caps, starts) && m < |caps| && |caps[m].payload| >= 2 && i < |caps| && i != m
    requires |after| == SIZE && forall k :: 0 <= k < SIZE && k != starts[m] + 3 ==> after[k] == cfg.data[k]
    ensures Stored(after, caps[i], starts[i])
  {
    assert Stored(cfg.data, caps[i], starts[i]);
    BlocksApart(cfg, caps, starts, i, starts[i], m, starts[m] + 3);
    forall j | 0 <= j < |caps[i].payload| ensures after[starts[i] + 2 + j] == caps[i].payload[j] {
      BlocksApart(cfg, caps, starts, i, starts[i] + 2 + j, m, starts[m] + 3);
    }
  }

  /** Every capability but one is intact. */
  ghost predicate OthersStored(after: seq<Byte>, caps: seq<Cap>, starts: seq<nat>, m: nat) {
    && |caps| == |starts|
    && forall i :: 0 <= i < |caps| && i != m ==>
         starts[i] + Length(caps[i]) <= |after| && Stored(after, caps[i], starts[i])
  }

  /** All but one byte is the same, and of that one the bits that are not writable. */
  ghost predicate OneByte(data: seq<Byte>, after: seq<Byte>, at: nat) {
    && |after| == |data| && at < |data| && after[at] % 64 == data[at] % 64
    && forall k :: 0 <= k < |data| && k != at ==> after[k] == data[k]
  }

  /** What becomes of a list: the walk is as it was, the other capabilities are intact, and so is
      all of this one but the two writable bits. */
  ghost predicate Survives(data: seq<Byte>, caps: seq<Cap>, starts: seq<nat>, m: nat, after: seq<Byte>) {
    && |after| == SIZE && m < |starts|
    && Visit(after, after[CAP_LIST_HEAD], STEPS) == starts
    && OthersStored(after, caps, starts, m)
    && OneByte(data, after, starts[m] + 3)
  }

  lemma WritesKeepOthers(cfg: Config, caps: seq<Cap>, starts: seq<nat>, m: nat, after: seq<Byte>)
    requires Holds(cfg, caps, starts) && m < |caps| && |caps[m].payload| >= 2
    requires |after| == SIZE && forall k :: 0 <= k < SIZE && k != starts[m] + 3 ==> after[k] == cfg.data[k]
    ensures OthersStored(after, caps, starts, m)
  {
    forall i | 0 <= i < |caps| && i != m ensures Stored(after, caps[i], starts[i]) {
      WritesKeepStored(cfg, caps, starts, m, after, i);
    }
  }

  lemma WritesSurvived(cfg: Config, caps: seq<Cap>, starts: seq<nat>, m: nat, writes: seq<Write>)
    requires Holds(cfg, caps, starts) && m < |caps| && |caps[m].payload| >= 2
    ensures Survives(cfg.data, caps, starts, m, WrittenAll(cfg.data, starts[m], writes, |writes|))
  {
    var after := WrittenAll(cfg.data, starts[m], writes, |writes|);
    WritesTouchOneByte(cfg.data, starts[m], writes, |writes|);
    WritesKeepLinks(cfg, caps, starts, m, after);
    WalkOf(after, caps, starts, cfg.next);
    WritesKeepOthers(cfg, caps, starts, m, after);
  }

  /** No sequence of guest writes breaks a list that was built. */
  lemma GuestCannotBreakTheList(header: seq<Byte>, caps: seq<Cap>, m: nat, writes: seq<Write>)
    requires |header| == SIZE && header[CAP_LIST_HEAD] == 0
    requires Built(header, caps, |caps|).Some? && m < |caps| && |caps[m].payload| >= 2
    ensures var data, starts := Built(header, caps, |caps|).value.data, Starts(caps, |caps|);
      starts[m] + 3 < SIZE && Survives(data, caps, starts, m, WrittenAll(data, starts[m], writes, |writes|))
  {
    BuiltHolds(header, caps, |caps|);
    assert caps[..|caps|] == caps;
    WritesSurvived(Built(header, caps, |caps|).value, caps, Starts(caps, |caps|), m, writes);
  }

  // ---- the builder ----

  function Le16(v: nat): seq<Byte> {
    [v % 256, v / 256 % 256]
  }

  function Le32(v: nat): seq<Byte> {
    [v % 256, v / 256 % 256, v / 0x1_0000 % 256, v / 0x100_0000 % 256]
  }

  /** What some sequence of accepted calls leads to. */
  ghost predicate IsList(cfg: Config, caps: seq<Cap>) {
    exists header :: |header| == SIZE && header[CAP_LIST_HEAD] == 0 && Built(header, caps, |caps|) == Some(cfg)
  }

  lemma {:induction false} BuiltPrefix(header: seq<Byte>, caps: seq<Cap>, c: Cap, n: nat)
    requires |header| == SIZE && n <= |caps|
    ensures Built(header, caps + [c], n) == Built(header, caps, n)
  {
    if n > 0 {
      BuiltPrefix(header, caps, c, n - 1);
    }
  }

  lemma IsListAfter(cfg: Config, caps: seq<Cap>, c: Cap)
    requires IsList(cfg, caps) && |cfg.data| == SIZE && Accepts(cfg, c)
    ensures IsList(Add(cfg, c), caps + [c])
  {
    var header :| |header| == SIZE && header[CAP_LIST_HEAD] == 0 && Built(header, caps, |caps|) == Some(cfg);
    BuiltPrefix(header, caps, c, |caps|);
  }

  lemma IsListFacts(cfg: Config, caps: seq<Cap>)
    requires IsList(cfg, caps)
    ensures LinkAt(cfg.last) < cfg.next == Start(caps, |caps|) && |cfg.data| == SIZE
  {
    var header :| |header| == SIZE && header[CAP_LIST_HEAD] == 0 && Built(header, caps, |caps|) == Some(cfg);
    BuiltHolds(header, caps, |caps|);
    assert caps[..|caps|] == caps;
    LinkIsBefore(cfg, caps, Starts(caps, |caps|));
  }

  lemma IsListEmpty(header: seq<Byte>)
    requires |header| == SIZE && header[CAP_LIST_HEAD] == 0
    ensures IsList(Config(header, None, FIRST_CAP), [])
  {
    assert Built(header, [], 0) == Some(Config(header, None, FIRST_CAP));
  }

  /** A block that ends the list, and nothing else changed. */
  function WithBlock(data: seq<Byte>, start: nat, c: Cap): seq<Byte>
    requires start + Length(c) <= |data|
  {
    seq<Byte>(|data|, k requires 0 <= k < |data| => BlockByte(data, start, c, k))
  }

  function BlockByte(data: seq<Byte>, start: nat, c: Cap, k: nat): Byte
    requires start + Length(c) <= |data| && k < |data|
  {
    if k == start then c.id
    else if k == start + 1 then 0
    else if start + 2 <= k < start + Length(c) then c.payload[k - start - 2]
    else data[k]
  }

  method PutBlock(data: array<Byte>, start: nat, c: Cap)
    requires start + Length(c) <= data.Length
    modifies data
    ensures data[..] == WithBlock(old(data[..]), start, c)
  {
    data[start] := c.id;
    data[start + 1] := 0;
    forall j | 0 <= j < |c.payload| {
      data[start + 2 + j] := c.payload[j];
    }
  }

  /** The block, and the byte that leads to it. */
  method PutCap(data: array<Byte>, last: Option<nat>, start: Byte, c: Cap)
    requires start + Length(c) <= data.Length && LinkAt(last) < start
    modifies data
    ensures data[..] == WithBlock(old(data[..]), start, c)[LinkAt(last) := start]
  {
    PutBlock(data, start, c);
    if last.Some? {
      data[last.value + 1] := start;
    } else {
      data[CAP_LIST_HEAD] := start;
    }
  }

  lemma AddIsBlockAndLink(cfg: Config, c: Cap)
    requires |cfg.data| == SIZE && Accepts(cfg, c) && LinkAt(cfg.last) < cfg.next
    ensures var data := WithBlock(cfg.data, cfg.next, c)[LinkAt(cfg.last) := cfg.next];
      Add(cfg, c) == Config(data, Some(cfg.next), NextDword(cfg.next + Length(c)))
  {
    SeqExt(Add(cfg, c).data, WithBlock(cfg.data, cfg.next, c)[LinkAt(cfg.last) := cfg.next]);
  }

  class PciConfig {
    const data: array<Byte>
    var last: Option<nat>
    var next: nat
    ghost var caps: seq<Cap>

    ghost function View(): Config
      reads this, data
    {
      Config(data[..], last, next)
    }

    ghost predicate Valid()
      reads this, data
    {
      data.Length == SIZE && IsList(View(), caps)
    }

    /** A space with its header filled in and no list yet. */
    constructor (header: seq<Byte>)
      requires |header| == SIZE && header[CAP_LIST_HEAD] == 0
      ensures Valid() && fresh(data) && caps == [] && View() == Config(header, None, FIRST_CAP)
    {
      data := new Byte[SIZE](i requires 0 <= i < SIZE => header[i]);
      last, next, caps := None, FIRST_CAP, [];
      new;
      assert data[..] == header;
      IsListEmpty(header);
    }

    /** `add_cap` */
    method AddCap(id: Byte, payload: seq<Byte>) returns (start: nat)
      requires Valid() && Accepts(View(), Cap(id, payload))
      modifies this, data
      ensures Valid() && View() == Add(old(View()), Cap(id, payload))
      ensures caps == old(caps) + [Cap(id, payload)] && start == Start(old(caps), |old(caps)|)
    {
      var c := Cap(id, payload);
      ghost var after := Add(View(), c);
      IsListAfter(View(), caps, c);
      IsListFacts(View(), caps);
      AddIsBlockAndLink(View(), c);
      start := next;
      Append(c);
      caps := caps + [c];
      assert View() == after;
    }

    /** The bytes and where they end. */
    method Append(c: Cap)
      requires next < 256 && next + Length(c) <= data.Length && LinkAt(last) < next
      modifies this`last, this`next, data
      ensures View() == Config(WithBlock(old(data[..]), old(next), c)[LinkAt(old(last)) := old(next)],
                               Some(old(next)), NextDword(old(next) + Length(c)))
    {
      PutCap(data, last, next, c);
      last, next := Some(next), NextDword(next + 2 + |c.payload|);
    }

    /** `add_msix_cap` */
    method AddMsixCap(tableSize: nat, tableOff: nat, pbaOff: nat) returns (start: nat)
      requires Valid() && FIRST_CAP <= next && next + 12 <= CAP_MAX && tableSize < 0x1_0000
      modifies this, data
      ensures Valid() && start == Start(old(caps), |old(caps)|)
      ensures caps == old(caps) + [Cap(MSIX_ID, Le16(tableSize) + Le32(tableOff) + Le32(pbaOff))]
    {
      start := AddCap(MSIX_ID, Le16(tableSize) + Le32(tableOff) + Le32(pbaOff));
    }
  }

  /** `write_msix_control`: the low byte's lane has nothing writable, the high byte's the top two
      bits. */
  method WriteMsixControl(data: array<Byte>, cap: nat, offset: nat, bytes: seq<Byte>)
    requires cap + 3 < data.Length
    modifies data
    ensures data[..] == Written(old(data[..]), cap, offset, bytes)
  {
    var i := 0;
    while i < |bytes|
      invariant 0 <= i <= |bytes|
      invariant data[..] == Written(old(data[..]), cap, offset, bytes[..i])
    {
      var off := offset + i;
      if cap + 2 <= off < cap + 4 {
        var lane := off - (cap + 2);
        data[off] := if lane == 0 then data[off] else Masked(data[off], bytes[i]);
      }
      i := i + 1;
    }
    assert bytes[..|bytes|] == bytes;
  }

  /** `read_cfg_space` */
  function ReadCfg(data: seq<Byte>, offset: nat, len: nat): seq<Byte> {
    seq(len, i requires 0 <= i < len => if offset + i < |data| then data[offset + i] else 0xff)
  }
}
