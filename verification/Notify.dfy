/** One virtio-blk queue as a protocol between its worker thread and the guest driver.

    Worker and driver take interleaved atomic steps, one shared-memory access each, under
    sequential consistency. Ring positions are unbounded counters; the two sides only ever
    compare their 16-bit images. A device reset may fall between any two passes of the
    worker, because a pass holds the queue lock and a reset takes it.

    Two guarantees are proved for every run: a worker that goes to sleep has not lost a
    kick, and a driver that goes to sleep has not lost an interrupt. */
module Notify {
  import opened Vring

  /** Where the worker is. From `Completing` to `Raising` it holds the queue lock. */
  datatype Pc =
    | Blocked      // in the engine, waiting for a completion or a kick
    | Woken        // has collected completions, has not taken the lock
    | Completing   // finishing collected completions
    | Suppressing  // about to ask the driver to stop kicking
    | Popping      // about to look for another chain
    | Starting     // holds a chain it just took
    | Arming       // about to ask the driver to kick again
    | Rechecking   // about to re-read the avail index
    | Deciding     // about to read the driver's interrupt hint
    | Raising      // about to raise the interrupt

  /** The driver's side of interrupt suppression. */
  datatype Sleeper =
    | Awake   // processing, or free to
    | Armed   // has published its hint, has not re-read the used index
    | Asleep  // found nothing new and waits for an interrupt

  datatype State = State(
    depth: nat, enabled: bool, eventIdx: bool, size: nat,
    // avail ring: published by the driver, `checked` when it last read the kick hint
    avail: nat, checked: nat, deciders: nat, kick: bool, availEvent: U16, noNotify: bool,
    // used ring: published by the worker, `seen` by the driver
    used: nat, seen: nat, driver: Sleeper, usedEvent: U16, noInterrupt: bool, irq: bool,
    // worker
    pc: Pc, last: nat, wantDrain: bool, notifySuppressed: bool, batchStart: nat,
    held: nat, stale: nat, done: nat
  )

  datatype DriverStep =
    // avail side
    | Publish | CheckHint | Kick
    // used side
    | Reap(upto: nat) | SetHint(event: U16, quiet: bool) | ArmIrq | RecheckUsed | TakeIrq

  datatype ControlStep = Reset | Setup(withEventIdx: bool, ringSize: nat)

  /** Waking up, taking the lock, and the interrupt decision that ends a pass. */
  datatype EdgeStep = Wake(kicked: bool, completions: nat) | PollHit | Lock | Decide | Raise

  datatype CompletionStep = Finish | Resubmit | DropStale | CompletionsDone

  datatype DrainStep = Suppress | Pop | CompleteInline | Issue | Arm | Recheck

  datatype Action =
    | Driver(d: DriverStep)
    | Control(c: ControlStep)
    | Edge(e: EdgeStep)
    | Completion(k: CompletionStep)
    | Drain(w: DrainStep)

  // ---- what each side reads ----

  /** The hint the worker publishes, as the driver evaluates it after publishing. */
  predicate DriverWantsToKick(s: State) {
    if s.eventIdx then NeedEvent(s.availEvent, Index(s.avail), Index(s.checked)) else !s.noNotify
  }

  /** `used_needs_interrupt`. */
  predicate DriverWantsInterrupt(s: State) {
    if s.eventIdx then NeedEvent(s.usedEvent, Index(s.used), Index(s.batchStart)) else !s.noInterrupt
  }

  /** `has_avail`: the 16-bit comparison of the avail index with our own position. */
  predicate HasAvail(s: State) {
    Index(s.avail) != Index(s.last)
  }

  /** Room for one more request in the slab and, one entry being kept for the kick read,
      in the engine. */
  predicate CanAccept(s: State) {
    s.held + 1 < s.depth
  }

  function Less(a: nat, b: nat): nat {
    if b <= a then a - b else 0
  }

  predicate InPass(s: State) {
    !s.pc.Blocked? && !s.pc.Woken?
  }

  predicate Draining(s: State) {
    s.pc.Suppressing? || s.pc.Popping? || s.pc.Starting? || s.pc.Arming? || s.pc.Rechecking?
  }

  // ---- steps ----

  predicate DriverEnabled(s: State, d: DriverStep) {
    match d
    case Publish => s.enabled && s.avail < s.seen + s.size && s.avail + 1 < s.checked + WRAP
    case CheckHint => s.enabled
    case Kick => s.deciders > 0
    case Reap(upto) => s.driver.Awake? && s.seen <= upto <= s.used
    case SetHint(_, _) => s.driver.Awake?
    case ArmIrq => s.driver.Awake?
    case RecheckUsed => s.driver.Armed?
    case TakeIrq => s.irq
  }

  function DriverNext(s: State, d: DriverStep): State
    requires DriverEnabled(s, d)
  {
    match d
    case Publish => s.(avail := s.avail + 1)
    case CheckHint =>
      s.(checked := s.avail, deciders := s.deciders + if DriverWantsToKick(s) then 1 else 0)
    case Kick => s.(deciders := s.deciders - 1, kick := true)
    case Reap(upto) => s.(seen := upto)
    case SetHint(event, quiet) => s.(usedEvent := event, noInterrupt := quiet)
    case ArmIrq => s.(usedEvent := Index(s.seen), noInterrupt := false, driver := Armed)
    case RecheckUsed => s.(driver := if Index(s.used) == Index(s.seen) then Asleep else Awake)
    case TakeIrq => s.(irq := false, driver := Awake)
  }

  predicate ControlEnabled(s: State, c: ControlStep) {
    match c
    case Reset => !InPass(s)
    case Setup(_, n) => !s.enabled && 0 < n <= 0x8000
  }

  function ControlNext(s: State, c: ControlStep): State
    requires ControlEnabled(s, c)
  {
    match c
    case Reset =>
      // A driver that was about to kick is gone with its queue; a kick already sent is not.
      s.(enabled := false, eventIdx := false, avail := 0, checked := 0, used := 0, seen := 0, last := 0,
         deciders := 0, driver := Awake, stale := s.held)
    case Setup(withEventIdx, ringSize) =>
      // A driver starts from zeroed rings.
      s.(enabled := true, eventIdx := withEventIdx, size := ringSize,
         avail := 0, checked := 0, used := 0, seen := 0, last := 0, stale := s.held,
         availEvent := 0, noNotify := false, usedEvent := 0, noInterrupt := false, driver := Awake)
  }

  predicate EdgeEnabled(s: State, e: EdgeStep) {
    match e
    case Wake(kicked, n) =>
      s.pc.Blocked? && (kicked ==> s.kick) && n <= s.held && (kicked || n > 0)
    case PollHit => s.pc.Blocked? && s.enabled && HasAvail(s)
    case Lock => s.pc.Woken?
    case Decide => s.pc.Deciding?
    case Raise => s.pc.Raising?
  }

  function EdgeNext(s: State, e: EdgeStep): State
    requires EdgeEnabled(s, e)
  {
    match e
    case Wake(kicked, n) =>
      s.(pc := Woken, done := n, kick := s.kick && !kicked, wantDrain := s.wantDrain || kicked)
    case PollHit => s.(pc := Woken, wantDrain := true)
    case Lock =>
      if s.enabled then s.(pc := Completing, batchStart := s.used)
      else
        s.(pc := Blocked, held := Less(s.held, s.done), stale := Less(s.stale, s.done), done := 0, wantDrain := false)
    case Decide =>
      s.(pc := if s.used > s.batchStart && DriverWantsInterrupt(s) then Raising else Blocked)
    case Raise => s.(pc := Blocked, irq := true)
  }

  predicate CompletionEnabled(s: State, k: CompletionStep) {
    && s.pc.Completing?
    && match k
       case Finish => s.done > 0 && s.held > s.stale
       case Resubmit => s.done > 0 && s.held > s.stale
       case DropStale => s.done > 0 && s.stale > 0
       case CompletionsDone => s.done == 0
  }

  function CompletionNext(s: State, k: CompletionStep): State
    requires CompletionEnabled(s, k)
  {
    match k
    case Finish => s.(used := s.used + 1, held := s.held - 1, done := s.done - 1)
    case Resubmit => s.(done := s.done - 1)
    case DropStale => s.(held := Less(s.held, 1), stale := s.stale - 1, done := s.done - 1)
    case CompletionsDone => s.(pc := if s.wantDrain then Suppressing else Deciding)
  }

  predicate DrainEnabled(s: State, w: DrainStep) {
    match w
    case Suppress => s.pc.Suppressing?
    case Pop => s.pc.Popping?
    case CompleteInline => s.pc.Starting?
    case Issue => s.pc.Starting?
    case Arm => s.pc.Arming?
    case Recheck => s.pc.Rechecking?
  }

  function DrainNext(s: State, w: DrainStep): State
    requires DrainEnabled(s, w)
  {
    match w
    case Suppress =>
      if s.eventIdx then
        s.(pc := Popping, notifySuppressed := true, availEvent := Index(s.last + s.size / 2 + 1))
      else
        s.(pc := Popping, notifySuppressed := true, noNotify := s.noNotify || !s.notifySuppressed)
    case Pop =>
      if !CanAccept(s) then s.(pc := Deciding)
      else if HasAvail(s) then s.(pc := Starting, last := s.last + 1)
      else s.(pc := Arming)
    case CompleteInline => s.(pc := Popping, used := s.used + 1)
    case Issue => s.(pc := Popping, held := s.held + 1)
    case Arm =>
      if s.eventIdx then
        s.(pc := Rechecking, notifySuppressed := false, availEvent := Index(s.last))
      else
        s.(pc := Rechecking, notifySuppressed := false, noNotify := s.noNotify && !s.notifySuppressed)
    case Recheck =>
      if HasAvail(s) then s.(pc := Suppressing) else s.(pc := Deciding, wantDrain := false)
  }

  predicate Enabled(s: State, a: Action) {
    match a
    case Driver(d) => DriverEnabled(s, d)
    case Control(c) => ControlEnabled(s, c)
    case Edge(e) => EdgeEnabled(s, e)
    case Completion(k) => CompletionEnabled(s, k)
    case Drain(w) => DrainEnabled(s, w)
  }

  function Next(s: State, a: Action): State
    requires Enabled(s, a)
  {
    match a
    case Driver(d) => DriverNext(s, d)
    case Control(c) => ControlNext(s, c)
    case Edge(e) => EdgeNext(s, e)
    case Completion(k) => CompletionNext(s, k)
    case Drain(w) => DrainNext(s, w)
  }

  // ---- runs ----

  /** The state before the guest has touched the device: `want_drain` starts out true. */
  predicate Init(s: State) {
    && s.depth >= 2 && !s.enabled && !s.eventIdx && s.pc.Blocked? && s.wantDrain && !s.notifySuppressed
    && s.held == s.stale == s.done == 0 && s.avail == s.checked == s.used == s.seen == s.last == 0
    && s.deciders == 0 && !s.kick && !s.irq && s.driver.Awake?
  }

  ghost predicate IsRun(states: seq<State>, actions: seq<Action>) {
    && |states| == |actions| + 1
    && Init(states[0])
    && forall i :: 0 <= i < |actions| ==>
         Enabled(states[i], actions[i]) && states[i + 1] == Next(states[i], actions[i])
  }

  // ---- the kick invariant ----

  /** The counters keep their order, and what was taken in this incarnation of the queue is
      either returned, held, or in the worker's hand. */
  predicate Counted(s: State) {
    && s.depth >= 2 && s.held < s.depth
    && s.stale <= s.held && s.done <= s.held
    && (s.done > 0 ==> s.pc.Woken? || s.pc.Completing?)
    && (InPass(s) ==> s.enabled)
    && (s.pc.Starting? ==> s.held + 1 < s.depth)
    && s.checked <= s.avail < s.checked + WRAP
    && s.seen <= s.used <= s.last <= s.avail
    && s.used + (s.held - s.stale) + (if s.pc.Starting? then 1 else 0) == s.last
    && (s.enabled ==> 0 < s.size <= 0x8000 && s.avail <= s.seen + s.size)
    && (!s.enabled ==> s.avail == 0 && s.stale == s.held)
  }

  /** The worker's published hint asks for a kick at the very next entry. */
  predicate HintAsks(s: State) {
    if s.eventIdx then s.availEvent == Index(s.last) else !s.noNotify
  }

  /** Whatever the driver publishes from here on reaches the worker: a kick is already on
      its way, or the driver has yet to read a hint that will make it kick. */
  predicate KickAssured(s: State) {
    HintAsks(s) && (s.kick || s.deciders > 0 || s.checked <= s.last)
  }

  predicate KickInv(s: State) {
    Counted(s) && HintInv(s)
  }

  predicate HintInv(s: State) {
    && (s.enabled && !s.eventIdx && s.noNotify ==> s.notifySuppressed)
    && (s.enabled && s.pc.Rechecking? ==> HintAsks(s))
    && (s.enabled && !s.wantDrain ==> KickAssured(s))
    && (Draining(s) ==> s.wantDrain)
    && (s.enabled && s.wantDrain && (s.pc.Deciding? || s.pc.Raising?) ==> s.held > 0)
    && (s.enabled && s.wantDrain && s.pc.Blocked? ==> s.held > 0 || KickAssured(s))
  }

  lemma HasAvailIsExact(s: State)
    requires Counted(s)
    ensures HasAvail(s) <==> s.avail > s.last
  {
    if Index(s.avail) == Index(s.last) && s.enabled {
      SameIndexNearby(s.avail, s.last);
    }
  }

  /** A driver that evaluates an armed hint, having published past it, kicks. */
  lemma ArmedHintMakesDriverKick(s: State)
    requires Counted(s) && s.enabled && HintAsks(s)
    requires s.checked <= s.last < s.avail
    ensures DriverWantsToKick(s)
  {
    if s.eventIdx {
      ShortBatchWakesExactlyItsOwn(s.last, s.avail, s.checked);
    }
  }

  lemma InitKickInv(s: State)
    requires Init(s)
    ensures KickInv(s)
  {}

  lemma CheckHintKeepsKickInv(s: State)
    requires KickInv(s) && s.enabled
    ensures KickInv(DriverNext(s, CheckHint))
  {
    if HintAsks(s) && s.checked <= s.last < s.avail {
      ArmedHintMakesDriverKick(s);
    }
  }

  lemma DriverStepKeepsKickInv(s: State, d: DriverStep)
    requires KickInv(s) && DriverEnabled(s, d) && !d.CheckHint?
    ensures KickInv(DriverNext(s, d))
  {}

  lemma ControlStepKeepsKickInv(s: State, c: ControlStep)
    requires KickInv(s) && ControlEnabled(s, c)
    ensures KickInv(ControlNext(s, c))
  {}

  lemma EdgeStepKeepsKickInv(s: State, e: EdgeStep)
    requires KickInv(s) && EdgeEnabled(s, e)
    ensures KickInv(EdgeNext(s, e))
  {}

  lemma CompletionStepKeepsKickInv(s: State, k: CompletionStep)
    requires KickInv(s) && CompletionEnabled(s, k)
    ensures KickInv(CompletionNext(s, k))
  {}

  /** The two steps that read the avail index. */
  predicate Looks(w: DrainStep) {
    w.Pop? || w.Recheck?
  }

  lemma FullKeeps(s: State)
    requires Counted(s) && s.pc.Popping? && !CanAccept(s)
    ensures HintInv(s) ==> KickInv(DrainNext(s, Pop))
    ensures IrqInv(s) ==> IrqInv(DrainNext(s, Pop))
  {}

  lemma TakeKeeps(s: State)
    requires Counted(s) && s.pc.Popping? && CanAccept(s) && HasAvail(s) && s.avail > s.last
    ensures HintInv(s) ==> KickInv(DrainNext(s, Pop))
    ensures IrqInv(s) ==> IrqInv(DrainNext(s, Pop))
  {}

  lemma EmptyKeeps(s: State)
    requires Counted(s) && s.pc.Popping? && CanAccept(s) && !HasAvail(s)
    ensures HintInv(s) ==> KickInv(DrainNext(s, Pop))
    ensures IrqInv(s) ==> IrqInv(DrainNext(s, Pop))
  {}

  lemma MoreKeeps(s: State)
    requires Counted(s) && s.pc.Rechecking? && HasAvail(s)
    ensures HintInv(s) ==> KickInv(DrainNext(s, Recheck))
    ensures IrqInv(s) ==> IrqInv(DrainNext(s, Recheck))
  {}

  /** The worker may stop draining here: it has asked for a kick, and then seen the ring empty. */
  lemma RestKeeps(s: State)
    requires Counted(s) && s.pc.Rechecking? && !HasAvail(s) && s.avail <= s.last
    ensures HintInv(s) ==> KickInv(DrainNext(s, Recheck))
    ensures IrqInv(s) ==> IrqInv(DrainNext(s, Recheck))
  {}

  lemma LookKeeps(s: State, w: DrainStep)
    requires Counted(s) && DrainEnabled(s, w) && Looks(w)
    ensures HintInv(s) ==> KickInv(DrainNext(s, w))
    ensures IrqInv(s) ==> IrqInv(DrainNext(s, w))
  {
    HasAvailIsExact(s);
    if w == Recheck {
      if HasAvail(s) {
        MoreKeeps(s);
      } else {
        RestKeeps(s);
      }
    } else if !CanAccept(s) {
      FullKeeps(s);
    } else if HasAvail(s) {
      TakeKeeps(s);
    } else {
      EmptyKeeps(s);
    }
  }

  lemma HintWriteKeepsKickInv(s: State, w: DrainStep)
    requires KickInv(s) && DrainEnabled(s, w) && !Looks(w)
    ensures KickInv(DrainNext(s, w))
  {}

  lemma StepKeepsKickInv(s: State, a: Action)
    requires KickInv(s) && Enabled(s, a)
    ensures KickInv(Next(s, a))
  {
    match a
    case Driver(d) => if d.CheckHint? { CheckHintKeepsKickInv(s); } else { DriverStepKeepsKickInv(s, d); }
    case Control(c) => ControlStepKeepsKickInv(s, c);
    case Edge(e) => EdgeStepKeepsKickInv(s, e);
    case Completion(k) => CompletionStepKeepsKickInv(s, k);
    case Drain(w) => if Looks(w) { LookKeeps(s, w); } else { HintWriteKeepsKickInv(s, w); }
  }

  lemma {:induction false} RunKeepsKickInv(states: seq<State>, actions: seq<Action>, i: nat)
    requires IsRun(states, actions) && i < |states|
    ensures KickInv(states[i])
  {
    if i == 0 {
      InitKickInv(states[0]);
    } else {
      RunKeepsKickInv(states, actions, i - 1);
      StepKeepsKickInv(states[i - 1], actions[i - 1]);
    }
  }

  /** No lost kick. In every state of every run in which the worker sleeps on an enabled
      queue with nothing left to drain, either the ring holds nothing untaken, or a kick is
      pending or decided, or the driver's outstanding hint check will decide to kick. */
  lemma NoLostKick(states: seq<State>, actions: seq<Action>, i: nat)
    requires IsRun(states, actions) && i < |states|
    requires var s := states[i]; s.pc.Blocked? && s.enabled && !s.wantDrain
    ensures var s := states[i];
      || s.avail == s.last
      || s.kick
      || s.deciders > 0
      || (Next(s, Driver(CheckHint)).deciders > 0 && s.checked < s.avail)
  {
    RunKeepsKickInv(states, actions, i);
    var s := states[i];
    if s.checked <= s.last < s.avail {
      ArmedHintMakesDriverKick(s);
    }
  }

  /** The worker never sleeps beside untaken work with nothing to wake it: besides the kick,
      the only other case is a full worker, and that one holds a request whose completion
      is still to come and re-opens the ring when it arrives. */
  lemma NeverStranded(states: seq<State>, actions: seq<Action>, i: nat)
    requires IsRun(states, actions) && i < |states|
    requires var s := states[i]; s.pc.Blocked? && s.enabled && s.avail > s.last
    ensures var s := states[i];
      || s.kick
      || s.deciders > 0
      || (Next(s, Driver(CheckHint)).deciders > 0 && s.checked < s.avail)
      || (s.wantDrain && s.held > 0)
  {
    RunKeepsKickInv(states, actions, i);
    var s := states[i];
    if HintAsks(s) && s.checked <= s.last {
      ArmedHintMakesDriverKick(s);
    }
  }

  // ---- the interrupt invariant ----

  /** The driver's published hint asks for an interrupt at the first entry it has not seen. */
  predicate IrqHintAsks(s: State) {
    if s.eventIdx then s.usedEvent == Index(s.seen) else !s.noInterrupt
  }

  predicate IrqInv(s: State) {
    && (InPass(s) ==> s.batchStart <= s.used)
    && (!s.enabled ==> s.driver.Awake? || s.used == s.seen)
    && (s.driver.Armed? || s.driver.Asleep? ==> IrqHintAsks(s) || !s.enabled)
    && (s.driver.Asleep? ==>
          || s.used == s.seen
          || s.irq
          || s.pc.Raising?
          || (InPass(s) && s.batchStart <= s.seen))
  }

  /** With event indices, the pass in progress has published fewer than 2^16 entries. */
  predicate ShortPass(s: State) {
    InPass(s) && s.eventIdx ==> s.used < s.batchStart + WRAP
  }

  /** The interrupt decision at the end of a pass of any length, for a driver that went to
      sleep during it: it is woken if and only if its unseen entries fit in the last
      `(used - batchStart) % 2^16` of the pass. */
  lemma DecideWakesSleeperIff(s: State)
    requires Counted(s) && IrqInv(s) && s.pc.Deciding? && s.driver.Asleep? && s.eventIdx
    requires s.batchStart <= s.seen < s.used
    ensures Next(s, Edge(Decide)).pc.Raising? <==> s.used - s.seen <= (s.used - s.batchStart) % WRAP
  {
    WakesIff(s.seen, s.used, s.batchStart);
  }

  lemma DriverStepKeepsIrqInv(s: State, d: DriverStep)
    requires Counted(s) && IrqInv(s) && DriverEnabled(s, d)
    ensures IrqInv(DriverNext(s, d))
  {
    if d.RecheckUsed? && Index(s.used) == Index(s.seen) {
      SameIndexNearby(s.used, s.seen);
    }
  }

  lemma EdgeStepKeepsIrqInv(s: State, e: EdgeStep)
    requires Counted(s) && IrqInv(s) && ShortPass(s) && EdgeEnabled(s, e)
    ensures IrqInv(EdgeNext(s, e))
  {
    if e.Decide? && s.driver.Asleep? && s.batchStart <= s.seen < s.used && s.eventIdx {
      DecideWakesSleeperIff(s);
    }
  }

  lemma ControlStepKeepsIrqInv(s: State, c: ControlStep)
    requires Counted(s) && IrqInv(s) && ControlEnabled(s, c)
    ensures IrqInv(ControlNext(s, c))
  {}

  lemma CompletionStepKeepsIrqInv(s: State, k: CompletionStep)
    requires Counted(s) && IrqInv(s) && CompletionEnabled(s, k)
    ensures IrqInv(CompletionNext(s, k))
  {}

  lemma HintWriteKeepsIrqInv(s: State, w: DrainStep)
    requires Counted(s) && IrqInv(s) && DrainEnabled(s, w) && !Looks(w)
    ensures IrqInv(DrainNext(s, w))
  {}

  lemma StepKeepsIrqInv(s: State, a: Action)
    requires Counted(s) && IrqInv(s) && ShortPass(s) && Enabled(s, a)
    ensures IrqInv(Next(s, a))
  {
    match a
    case Driver(d) => DriverStepKeepsIrqInv(s, d);
    case Control(c) => ControlStepKeepsIrqInv(s, c);
    case Edge(e) => EdgeStepKeepsIrqInv(s, e);
    case Completion(k) => CompletionStepKeepsIrqInv(s, k);
    case Drain(w) => if Looks(w) { LookKeeps(s, w); } else { HintWriteKeepsIrqInv(s, w); }
  }

  lemma {:induction false} RunKeepsIrqInv(states: seq<State>, actions: seq<Action>, i: nat)
    requires IsRun(states, actions) && i < |states|
    requires forall j :: 0 <= j < i ==> ShortPass(states[j])
    ensures IrqInv(states[i])
  {
    if i > 0 {
      RunKeepsIrqInv(states, actions, i - 1);
      RunKeepsKickInv(states, actions, i - 1);
      StepKeepsIrqInv(states[i - 1], actions[i - 1]);
    }
  }

  /** No lost interrupt. In every run whose passes with event indices each publish fewer than 2^16
      entries, and with flags any number, whenever a pass has ended a sleeping driver has seen
      every used entry or has an interrupt pending. */
  lemma NoLostInterrupt(states: seq<State>, actions: seq<Action>, i: nat)
    requires IsRun(states, actions) && i < |states|
    requires forall j :: 0 <= j < i ==> ShortPass(states[j])
    requires !InPass(states[i]) && states[i].driver.Asleep?
    ensures states[i].used == states[i].seen || states[i].irq
  {
    RunKeepsIrqInv(states, actions, i);
  }

  // ---- a pass of a whole lap ----

  ghost predicate Reachable(s: State) {
    exists states, actions :: IsRun(states, actions) && states[|actions|] == s
  }

  lemma InitReachable(s: State)
    requires Init(s)
    ensures Reachable(s)
  {
    assert IsRun([s], []);
  }

  lemma StepReachable(s: State, a: Action)
    requires Reachable(s) && Enabled(s, a)
    ensures Reachable(Next(s, a))
  {
    var states, actions :| IsRun(states, actions) && states[|actions|] == s;
    assert IsRun(states + [Next(s, a)], actions + [a]);
  }

  /** In the middle of its first pass the worker has returned `k` entries, the driver has seen them
      all, and one more is on the ring. */
  predicate Lap(s: State, k: nat) {
    && s.enabled && s.eventIdx && 0 < s.size && s.depth >= 2 && s.held == 0
    && s.pc.Popping? && s.batchStart == 0
    && s.last == s.used == s.seen == s.checked == k && s.avail == k + 1
    && s.driver.Awake? && !s.irq
  }

  lemma LapStarts(s0: State, ringSize: nat) returns (s: State)
    requires Init(s0) && 0 < ringSize <= 0x8000
    ensures Reachable(s) && Lap(s, 0)
  {
    InitReachable(s0);
    StepReachable(s0, Control(Setup(true, ringSize)));
    var s1 := Next(s0, Control(Setup(true, ringSize)));
    StepReachable(s1, Driver(Publish));
    var s2 := Next(s1, Driver(Publish));
    StepReachable(s2, Edge(PollHit));
    var s3 := Next(s2, Edge(PollHit));
    StepReachable(s3, Edge(Lock));
    var s4 := Next(s3, Edge(Lock));
    StepReachable(s4, Completion(CompletionsDone));
    var s5 := Next(s4, Completion(CompletionsDone));
    StepReachable(s5, Drain(Suppress));
    s := Next(s5, Drain(Suppress));
  }

  /** The worker takes the entry and returns it on the spot. */
  lemma EntryReturned(s: State) returns (t: State)
    requires Reachable(s) && s.pc.Popping? && CanAccept(s) && HasAvail(s)
    ensures t == s.(last := s.last + 1, used := s.used + 1) && Reachable(t)
  {
    StepReachable(s, Drain(Pop));
    StepReachable(Next(s, Drain(Pop)), Drain(CompleteInline));
    t := Next(Next(s, Drain(Pop)), Drain(CompleteInline));
  }

  /** The driver sees it, looks at the hint, and puts on the next one. */
  lemma EntryReplaced(s: State, k: nat) returns (t: State)
    requires Reachable(s) && s.last == s.used == k + 1 && Lap(s.(last := k, used := k), k)
    ensures Reachable(t) && Lap(t, k + 1)
  {
    StepReachable(s, Driver(Reap(k + 1)));
    var s1 := Next(s, Driver(Reap(k + 1)));
    StepReachable(s1, Driver(CheckHint));
    var s2 := Next(s1, Driver(CheckHint));
    StepReachable(s2, Driver(Publish));
    t := Next(s2, Driver(Publish));
  }

  lemma {:induction false} LapGoesOn(s0: State, ringSize: nat, k: nat) returns (s: State)
    requires Init(s0) && 0 < ringSize <= 0x8000 && k < WRAP
    ensures Reachable(s) && Lap(s, k)
  {
    if k == 0 {
      s := LapStarts(s0, ringSize);
    } else {
      var before := LapGoesOn(s0, ringSize, k - 1);
      var returned := EntryReturned(before);
      s := EntryReplaced(returned, k - 1);
    }
  }

  lemma DriverSleeps(s: State) returns (t: State)
    requires Reachable(s) && s.driver.Awake? && s.used == s.seen
    ensures t == s.(usedEvent := Index(s.seen), noInterrupt := false, driver := Asleep) && Reachable(t)
  {
    StepReachable(s, Driver(ArmIrq));
    StepReachable(Next(s, Driver(ArmIrq)), Driver(RecheckUsed));
    t := Next(Next(s, Driver(ArmIrq)), Driver(RecheckUsed));
  }

  lemma WorkerArms(s: State) returns (t: State)
    requires Reachable(s) && s.pc.Popping? && CanAccept(s) && !HasAvail(s)
    ensures Reachable(t) && t.pc.Rechecking?
    ensures t == s.(pc := t.pc, notifySuppressed := false, availEvent := t.availEvent, noNotify := t.noNotify)
  {
    StepReachable(s, Drain(Pop));
    StepReachable(Next(s, Drain(Pop)), Drain(Arm));
    t := Next(Next(s, Drain(Pop)), Drain(Arm));
  }

  lemma PassEnds(s: State) returns (t: State)
    requires Reachable(s) && s.pc.Popping? && CanAccept(s) && !HasAvail(s)
    ensures Reachable(t) && t.pc.Deciding? && t.eventIdx == s.eventIdx
    ensures t.used == s.used && t.seen == s.seen && t.batchStart == s.batchStart
    ensures t.driver == s.driver && t.usedEvent == s.usedEvent && t.irq == s.irq
  {
    var armed := WorkerArms(s);
    StepReachable(armed, Drain(Recheck));
    t := Next(armed, Drain(Recheck));
  }

  /** The bound on a pass is needed. On any ring, however small, some run has a pass of exactly 2^16
      entries that ends with the driver asleep, an entry it has not seen, and no interrupt. */
  lemma WholeLapLosesTheInterrupt(s0: State, ringSize: nat) returns (s: State)
    requires Init(s0) && 0 < ringSize <= 0x8000
    ensures Reachable(s) && s.pc.Blocked?
    ensures s.driver.Asleep? && s.used == WRAP && s.seen == WRAP - 1 && !s.irq
  {
    var lap := LapGoesOn(s0, ringSize, WRAP - 1);
    var asleep := DriverSleeps(lap);
    var returned := EntryReturned(asleep);
    var done := PassEnds(returned);
    assert !DriverWantsInterrupt(done);
    StepReachable(done, Edge(Decide));
    s := Next(done, Edge(Decide));
  }
}
