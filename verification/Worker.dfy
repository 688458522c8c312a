/** The worker that serves one virtqueue, with its slab, its engine and the rings it answers
    into. Completions arrive in any order; a reset may fall between passes. Every method is
    proved to be a sequence of the slab's permitted moves. */
module Workers {
  import opened Segments
  import opened Wrappers
  import opened Disk
  import opened Transfer
  import opened Requests
  import opened Engine
  import opened Ledger
  import opened Slab

  /** `nesbox-vda`, padded to the twenty bytes GET_ID returns. */
  const DISK_ID: seq<Byte> :=
    [110, 101, 115, 98, 111, 120, 45, 118, 100, 97, 0, 0, 0, 0, 0, 0, 0, 0, 0, 0]

  /** What the kernel left in a finished job's staging buffer, and in guest memory. */
  datatype Delivery = Delivery(buf: seq<Byte>, mem: seq<Byte>)

  /** A chain the driver offers. */
  datatype Offer = Offer(head: nat, descs: seq<Desc>)

  /** What the driver is told was written: data and status of a read, otherwise the status. */
  function UsedLen(status: nat, op: Op, total: nat): nat {
    if status == BLK_S_OK && op.Read? then total + 1 else 1
  }

  /** A slot as the kernel hands it back: only the staging buffer's contents may differ. */
  function HandedBack(s: Slot, buf: seq<Byte>): Slot {
    if s.bounce.Some? && |buf| == |s.bounce.value.buf| then s.(bounce := Some(s.bounce.value.(buf := buf))) else s
  }

  /** A completion never changes whose request a slot holds. */
  lemma OnDoneKeepsIdentity(d: Disk, s: Slot, mem: seq<Byte>, result: int, junk: seq<Byte>)
    requires Probed(d) && Sound(s, |mem|)
    ensures match OnDone(d, s, mem, result, junk)
      case Again(t) => Sound(t, |mem|) && t.head == s.head && t.generation == s.generation
      case Finish(_, m) => |m| == |mem|
  {}

  // ---- what one completion and one chain amount to ----

  /** The books and guest memory at some point of a pass. */
  datatype Point = Point(slab: Slab, mem: seq<Byte>)

  /** `complete`: one finished job of an enabled queue. A request of an earlier generation is dropped
      without a byte written; otherwise it goes back to the engine, or is answered exactly once. */
  ghost predicate Completed(disk: Disk, p: Point, d: Done, delivered: Delivery, junk: seq<Byte>, q: Point)
    requires Probed(disk)
  {
    && d.token < |p.slab.slots| && p.slab.slots[d.token].Some?
    && var s := HandedBack(p.slab.slots[d.token].value, delivered.buf);
       if s.generation != p.slab.generation then
         Moved(p.slab, GiveBack(d.token), q.slab) && q.mem == delivered.mem
       else
         Sound(s, |delivered.mem|) &&
         match OnDone(disk, s, delivered.mem, d.result, junk)
         case Again(t) => Moved(p.slab, Resume(d.token, t), q.slab) && q.mem == delivered.mem
         case Finish(status, m) =>
           && Moved(p.slab, AnswerSlot(d.token, UsedLen(status, s.op, s.total), ANSWER), q.slab)
           && q.mem == WithStatus(m, s.statusAddr, status)
  }

  /** One finished job of a queue that is gone: the slot comes back, and what the kernel delivered is
      all that reaches guest memory. */
  ghost predicate Dropped(p: Point, d: Done, delivered: Delivery, q: Point) {
    Moved(p.slab, GiveBack(d.token), q.slab) && q.mem == delivered.mem
  }

  /** `issue`: a parsed request goes to the engine, or is answered here if it cannot. */
  ghost predicate Issued(disk: Disk, base: nat, p: Point, req: Request, junk: seq<Byte>, q: Point)
    requires Probed(disk)
  {
    Parsed(req, |p.mem|) &&
    match Prepare(disk, base, p.mem, req, p.slab.generation, junk)
    case Some(s) => Moved(p.slab, Hold(s), q.slab) && q.mem == p.mem
    case None =>
      && Moved(p.slab, AnswerNow(Used(req.head, 1), [StatusByte, UsedElement]), q.slab)
      && q.mem == WithStatus(p.mem, req.statusAddr, BLK_S_IOERR)
  }

  /** GET_ID, the one request answered out of the device's own memory. */
  ghost predicate Identified(p: Point, req: Request, q: Point) {
    && Parsed(req, |p.mem|)
    && Moved(p.slab, AnswerNow(Used(req.head, IdLen(req.total)), ANSWER), q.slab)
    && q.mem == WithStatus(Scatter(p.mem, req.segments, DISK_ID), req.statusAddr, BLK_S_OK)
  }

  /** `start`: one chain taken from the ring. */
  ghost predicate Started(disk: Disk, base: nat, p: Point, offer: Offer, junk: seq<Byte>, q: Point)
    requires Probed(disk)
  {
    match Parse(p.mem, disk, offer.head, offer.descs)
    case Malformed =>
      q.mem == p.mem && Moved(p.slab, AnswerNow(Used(offer.head, 0), [UsedElement]), q.slab)
    case Rejected(addr, status) =>
      && q.mem == WithStatus(p.mem, addr, status)
      && Moved(p.slab, AnswerNow(Used(offer.head, 1), [StatusByte, UsedElement]), q.slab)
    case Accepted(req) =>
      if req.op.GetId? then Identified(p, req, q) else Issued(disk, base, p, req, junk, q)
  }

  // ---- everything that happens to a queue, one thing at a time ----

  datatype Event =
    | Outside                                                 // guest, other queues
    | Control(m: Move)                                        // the control plane
    | Reaped(tokens: set<nat>)                                // finished jobs collected
    | Handled(d: Done, delivered: Delivery, junk: seq<Byte>)  // the kernel, then `complete`
    | Discarded(d: Done, delivered: Delivery)                 // the kernel, then `release`
    | Taken(offer: Offer, junk: seq<Byte>)                    // `start`

  /** The worker's part of an event. */
  ghost predicate WorkerDid(disk: Disk, base: nat, p: Point, e: Event, q: Point)
    requires Probed(disk)
  {
    && |q.mem| == |p.mem|
    && match e
       case Outside => q.slab == p.slab
       case Control(m) => (m.Bump? || m.Switch?) && Moved(p.slab, m, q.slab) && q.mem == p.mem
       case Reaped(tokens) => Moved(p.slab, Collect(tokens), q.slab) && q.mem == p.mem
       case Handled(d, delivered, junk) => Completed(disk, p, d, delivered, junk, q)
       case Discarded(d, delivered) => Dropped(p, d, delivered, q)
       case Taken(offer, junk) => Started(disk, base, p, offer, junk, q)
  }

  ghost predicate IsTrace(disk: Disk, base: nat, points: seq<Point>, events: seq<Event>)
    requires Probed(disk)
  {
    && |points| == |events| + 1
    && forall i :: 0 <= i < |events| ==> WorkerDid(disk, base, points[i], events[i], points[i + 1])
  }

  /** These events, in this order, lead from `p` to `q`. */
  ghost predicate Led(disk: Disk, base: nat, p: Point, events: seq<Event>, q: Point)
    requires Probed(disk)
  {
    exists points :: IsTrace(disk, base, points, events) && points[0] == p && points[|events|] == q
  }

  lemma LedOne(disk: Disk, base: nat, p: Point, e: Event, q: Point)
    requires Probed(disk) && WorkerDid(disk, base, p, e, q)
    ensures Led(disk, base, p, [e], q)
  {
    assert IsTrace(disk, base, [p, q], [e]);
  }

  lemma LedReaped(disk: Disk, base: nat, p: Point, tokens: set<nat>, q: Point)
    requires Probed(disk) && Moved(p.slab, Collect(tokens), q.slab) && q.mem == p.mem
    ensures Led(disk, base, p, [Reaped(tokens)], q)
  {
    LedOne(disk, base, p, Reaped(tokens), q);
  }

  lemma TraceGrows(disk: Disk, base: nat, points: seq<Point>, events: seq<Event>, e: Event, q: Point)
    requires Probed(disk) && IsTrace(disk, base, points, events) && WorkerDid(disk, base, points[|events|], e, q)
    ensures IsTrace(disk, base, points + [q], events + [e])
  {
    var longer, more := points + [q], events + [e];
    forall i | 0 <= i < |more| ensures WorkerDid(disk, base, longer[i], more[i], longer[i + 1]) {
      assert i < |events| ==> longer[i] == points[i] && longer[i + 1] == points[i + 1] && more[i] == events[i];
    }
  }

  lemma LedGrows(disk: Disk, base: nat, p: Point, events: seq<Event>, r: Point, e: Event, q: Point)
    requires Probed(disk) && Led(disk, base, p, events, r) && WorkerDid(disk, base, r, e, q)
    ensures Led(disk, base, p, events + [e], q)
  {
    var points :| IsTrace(disk, base, points, events) && points[0] == p && points[|events|] == r;
    TraceGrows(disk, base, points, events, e, q);
    var longer, more := points + [q], events + [e];
    assert longer[0] == p && longer[|more|] == q;
  }

  // ---- a whole pass ----

  /** The first `n` completions, handled in order. */
  function Handlings(done: seq<Done>, deliveries: seq<Delivery>, n: nat, junk: seq<Byte>): seq<Event>
    requires n <= |done| == |deliveries|
  {
    if n == 0 then []
    else Handlings(done, deliveries, n - 1, junk) + [Handled(done[n - 1], deliveries[n - 1], junk)]
  }

  /** The first `n` completions, given back in order. */
  function Discards(done: seq<Done>, deliveries: seq<Delivery>, n: nat): seq<Event>
    requires n <= |done| == |deliveries|
  {
    if n == 0 then [] else Discards(done, deliveries, n - 1) + [Discarded(done[n - 1], deliveries[n - 1])]
  }

  /** The first `n` offers. */
  function Takings(offers: seq<Offer>, n: nat, junk: seq<Byte>): seq<Event>
    requires n <= |offers|
  {
    if n == 0 then [] else Takings(offers, n - 1, junk) + [Taken(offers[n - 1], junk)]
  }

  /** On an enabled queue every completion is handled and then the first `taken` offers are started; on
      one that is gone every completion is given back and nothing is taken. */
  function PassEvents(enabled: bool, done: seq<Done>, deliveries: seq<Delivery>, offers: seq<Offer>, taken: nat,
                      junk: seq<Byte>): seq<Event>
    requires |done| == |deliveries| && taken <= |offers|
  {
    if enabled then Handlings(done, deliveries, |done|, junk) + Takings(offers, taken, junk)
    else Discards(done, deliveries, |done|)
  }

  lemma NoTakings(events: seq<Event>, offers: seq<Offer>, junk: seq<Byte>)
    ensures events + Takings(offers, 0, junk) == events
  {
  }

  lemma NothingMore<T>(a: seq<T>)
    ensures a + [] == a
  {
  }

  lemma Joined<T>(a: seq<T>, b: seq<T>, c: seq<T>)
    ensures a + b + c == a + (b + c)
  {
  }

  lemma CollectReaches(c: Slab, cqes: seq<Cqe>)
    requires Reached(c) && Answers(cqes, c.outstanding)
    ensures var tokens := Tokens(Jobs(cqes));
      Distinct(Jobs(cqes)) && Moved(c, Move.Collect(tokens), Collected(c, tokens)) && Reached(Collected(c, tokens))
  {
    AnswersAreDistinct(cqes, c.outstanding);
    ReachedAfter(c, Move.Collect(Tokens(Jobs(cqes))));
  }

  class Worker {
    const depth: nat
    const disk: Disk
    const hostBase: nat
    const engine: UringEngine
    // the queue, changed by the control plane between passes
    var enabled: bool
    var generation: nat
    var published: nat
    // the slab
    var slots: seq<Option<Slot>>
    var free: seq<nat>
    var wantDrain: bool
    // guest memory and the used ring
    var mem: seq<Byte>
    var used: seq<Used>
    // proof state
    ghost var ledger: Ledger
    ghost var pending: set<nat>
    ghost var writes: seq<GuestWrite>

    ghost function View(): Slab
      reads this, engine
    {
      Slab(depth, |mem|, enabled, generation, slots, free, engine.outstanding, pending, used, ledger, writes)
    }

    ghost function Here(): Point
      reads this, engine
    {
      Point(View(), mem)
    }

    ghost predicate Valid()
      reads this, engine
    {
      Probed(disk) && engine.Valid() && engine.depth == depth && Reached(View())
    }

    constructor (queueDepth: nat, backing: Disk, base: nat, guest: seq<Byte>)
      requires queueDepth >= 2 && Probed(backing)
      ensures Valid() && fresh(engine) && View() == Empty(queueDepth, |guest|)
      ensures !enabled && wantDrain && published == 0
    {
      depth, disk, hostBase := queueDepth, backing, base;
      engine := new UringEngine(queueDepth);
      enabled, generation, published, wantDrain := false, 0, 0, true;
      slots := seq(queueDepth, i => None);
      free := seq(queueDepth, i requires 0 <= i < queueDepth => queueDepth - 1 - i);
      mem, used := guest, [];
      ledger, pending, writes := EMPTY, {}, [];
      new;
      ReachedEmpty(depth, |mem|);
    }

    predicate CanAccept()
      reads this, engine
    {
      free != [] && engine.Room() > 0
    }

    /** Collect what the engine finished. */
    method Collect(cqes: seq<Cqe>) returns (done: seq<Done>, kicked: bool)
      requires Valid() && pending == {} && Answers(cqes, engine.outstanding)
      modifies this`pending, this`wantDrain, engine
      ensures Valid() && done == Jobs(cqes) && Distinct(done)
      ensures Moved(old(View()), Move.Collect(Tokens(done)), View())
      ensures pending == Tokens(done) && engine.outstanding == old(engine.outstanding) - Tokens(done)
      ensures wantDrain == (old(wantDrain) || KickDone in cqes)
    {
      ghost var c := View();
      CollectReaches(c, cqes);
      done, kicked := engine.Run(cqes);
      pending := pending + Tokens(done);
      wantDrain := wantDrain || kicked;
      assert View() == Collected(c, Tokens(done));
    }

    /** `release`: a slot comes back without an answer, because its queue is gone. */
    method GiveSlotBack(token: nat)
      requires Valid() && token in pending && token < |slots| && slots[token].Some?
      requires Gone(View(), slots[token].value)
      modifies this`slots, this`free, this`ledger, this`pending
      ensures Valid() && Moved(old(View()), GiveBack(token), View())
    {
      ghost var c := View();
      HandFacts(c, token);
      ReachedAfter(c, GiveBack(token));
      slots := slots[token := None];
      free := free + [token];
      ledger, pending := Release(ledger, token), pending - {token};
    }

    /** `resubmit`: the rest of a request goes back to the engine, whose ring always has room
        for it. */
    method Resubmit(token: nat, t: Slot)
      requires Valid() && Permitted(View(), Resume(token, t))
      modifies this`slots, this`pending, engine
      ensures Valid() && Moved(old(View()), Resume(token, t), View())
    {
      ghost var c := View();
      HandFacts(c, token);
      ReachedAfter(c, Resume(token, t));
      var ok := engine.Submit(token);
      assert ok;
      slots := slots[token := Some(t)];
      pending := pending - {token};
    }

    /** The end of a request: status byte, used element, slot back to the free list. */
    method Finish(token: nat, s: Slot, status: nat)
      requires Valid() && enabled && token in pending && token < |slots| && slots[token].Some?
      requires s.head == slots[token].value.head && s.generation == slots[token].value.generation == generation
      modifies this`slots, this`free, this`used, this`mem, this`ledger, this`pending, this`writes
      ensures Valid() && mem == WithStatus(old(mem), s.statusAddr, status)
      ensures Moved(old(View()), AnswerSlot(token, UsedLen(status, s.op, s.total), ANSWER), View())
    {
      ghost var c := View();
      HandFacts(c, token);
      ReachedAfter(c, AnswerSlot(token, UsedLen(status, s.op, s.total), ANSWER));
      writes := Log(c, ledger.holder[token], ANSWER);
      mem := WithStatus(mem, s.statusAddr, status);
      used := used + [Used(s.head, UsedLen(status, s.op, s.total))];
      slots := slots[token := None];
      free := free + [token];
      ledger, pending := Answer(ledger, token), pending - {token};
    }

    /** `complete` */
    method Complete(d: Done, delivered: Delivery, junk: seq<Byte>)
      requires Valid() && enabled && d.token in pending && |delivered.mem| == |mem|
      modifies this`slots, this`free, this`used, this`mem, this`ledger, this`pending, this`writes, engine
      ensures Valid() && pending == old(pending) - {d.token} && |mem| == |old(mem)|
      ensures Completed(disk, old(Here()), d, delivered, junk, Here())
    {
      HandFacts(View(), d.token);
      var s := HandedBack(slots[d.token].value, delivered.buf);
      mem := delivered.mem;
      if s.generation != generation {
        GiveSlotBack(d.token);
        return;
      }
      OnDoneKeepsIdentity(disk, s, mem, d.result, junk);
      match OnDone(disk, s, mem, d.result, junk)
      case Again(t) =>
        Resubmit(d.token, t);
      case Finish(status, m) =>
        mem := m;
        Finish(d.token, s, status);
    }

    // ---- taking chains ----

    /** A chain answered as soon as it is taken. */
    method AnswerChain(head: nat, len: nat, ghost kinds: seq<WriteKind>)
      requires Valid() && enabled
      modifies this`used, this`ledger, this`writes
      ensures Valid() && Moved(old(View()), AnswerNow(Used(head, len), kinds), View())
    {
      ghost var c := View();
      ReachedAfter(c, AnswerNow(Used(head, len), kinds));
      used := used + [Used(head, len)];
      writes := Log(c, |ledger.fates|, kinds);
      ledger := TakeAnswered(ledger, head, generation);
    }

    /** `issue`: hand a parsed request to the engine, or answer it here if it cannot go. */
    method Issue(req: Request, junk: seq<Byte>)
      requires Valid() && enabled && CanAccept() && pending == {} && Parsed(req, |mem|)
      modifies this`slots, this`free, this`used, this`mem, this`ledger, this`writes, engine
      ensures Valid() && pending == {} && |mem| == |old(mem)|
      ensures Issued(disk, hostBase, old(Here()), req, junk, Here())
    {
      match Prepare(disk, hostBase, mem, req, generation, junk)
      case None =>
        mem := WithStatus(mem, req.statusAddr, BLK_S_IOERR);
        AnswerChain(req.head, 1, [StatusByte, UsedElement]);
      case Some(s) =>
        ghost var c := View();
        FreeFacts(c);
        ReachedAfter(c, Hold(s));
        var token := free[|free| - 1];
        free := free[..|free| - 1];
        var ok := engine.Submit(token);
        assert ok;
        slots := slots[token := Some(s)];
        ledger := TakeHeld(ledger, s.head, generation, token);
    }

    /** GET_ID, the one request answered out of the device's own memory. */
    method AnswerId(req: Request)
      requires Valid() && enabled && Parsed(req, |mem|)
      modifies this`used, this`mem, this`ledger, this`writes
      ensures Valid() && |mem| == |old(mem)| && Identified(old(Here()), req, Here())
    {
      mem := WithStatus(Scatter(mem, req.segments, DISK_ID), req.statusAddr, BLK_S_OK);
      AnswerChain(req.head, IdLen(req.total), ANSWER);
    }

    /** `start`: parse one chain and issue it, or answer it on the spot. Every chain taken is
        accounted for by exactly one move. */
    method Start(offer: Offer, junk: seq<Byte>)
      requires Valid() && enabled && CanAccept() && pending == {} && Sized(disk)
      modifies this`slots, this`free, this`used, this`mem, this`ledger, this`writes, engine
      ensures Valid() && pending == {} && |mem| == |old(mem)|
      ensures Started(disk, hostBase, old(Here()), offer, junk, Here())
    {
      var parsed := ParseChain(mem, disk, offer.head, offer.descs);
      match parsed
      case Malformed =>
        AnswerChain(offer.head, 0, [UsedElement]);
      case Rejected(addr, status) =>
        mem := WithStatus(mem, addr, status);
        AnswerChain(offer.head, 1, [StatusByte, UsedElement]);
      case Accepted(req) =>
        AcceptedParses(mem, disk, offer.head, offer.descs);
        if req.op.GetId? {
          AnswerId(req);
        } else {
          Issue(req, junk);
        }
    }

    // ---- passes ----

    /** `publish_in_flight`. Zero means the engine holds nothing that could still write into
        guest memory. */
    method Publish()
      requires Valid()
      modifies this`published
      ensures Valid() && published == |engine.outstanding| + |pending| < depth && Here() == old(Here())
      ensures published == 0 ==> engine.outstanding == {} && pending == {}
    {
      CountFacts(View());
      BelowDepth(View());
      published := depth - |free|;
    }

    /** One turn of the loop in `run`, whatever the engine finished and the driver offered.
        All completions are handled, and what is published is exactly what is outstanding. A queue
        that is gone is not written for: only the kernel's own deliveries reach its memory. */
    method Pass(cqes: seq<Cqe>, deliveries: seq<Delivery>, offers: seq<Offer>, junk: seq<Byte>)
      returns (taken: nat)
      requires Valid() && pending == {} && Answers(cqes, engine.outstanding) && Sized(disk)
      requires |deliveries| == |Jobs(cqes)| && forall i :: 0 <= i < |deliveries| ==> |deliveries[i].mem| == |mem|
      modifies this, engine
      ensures Valid() && pending == {} && published == |engine.outstanding| < depth && taken <= |offers|
      ensures var done := Jobs(cqes);
        Led(disk, hostBase, old(Here()),
            [Reaped(Tokens(done))] + PassEvents(enabled, done, deliveries, offers, taken, junk), Here())
      ensures generation == old(generation) && enabled == old(enabled) && |mem| == |old(mem)|
      ensures !enabled ==> used == old(used) && writes == old(writes) && !wantDrain && taken == 0
      ensures !enabled ==> engine.outstanding == old(engine.outstanding) - Tokens(Jobs(cqes))
      ensures enabled ==> (wantDrain <==> (old(wantDrain) || KickDone in cqes) && !CanAccept())
      ensures enabled && (old(wantDrain) || KickDone in cqes) && taken < |offers| ==> !CanAccept()
      ensures enabled && !old(wantDrain) && KickDone !in cqes ==> taken == 0
    {
      var done := Reap(cqes);
      taken := Settle(done, deliveries, offers, junk, old(Here()), [Reaped(Tokens(done))]);
      Publish();
    }

    method Reap(cqes: seq<Cqe>) returns (done: seq<Done>)
      requires Valid() && pending == {} && Answers(cqes, engine.outstanding)
      modifies this`pending, this`wantDrain, engine
      ensures Valid() && done == Jobs(cqes) && Distinct(done) && pending == Tokens(done)
      ensures engine.outstanding == old(engine.outstanding) - Tokens(done)
      ensures wantDrain == (old(wantDrain) || KickDone in cqes)
      ensures Led(disk, hostBase, old(Here()), [Reaped(Tokens(done))], Here())
    {
      var kicked;
      done, kicked := Collect(cqes);
      LedReaped(disk, hostBase, old(Here()), Tokens(done), Here());
    }

    /** Under the queue lock: serve the queue, or give everything back if it is gone. */
    method Settle(done: seq<Done>, deliveries: seq<Delivery>, offers: seq<Offer>, junk: seq<Byte>,
                  ghost p: Point, ghost events: seq<Event>) returns (taken: nat)
      requires Valid() && pending == Tokens(done) && Distinct(done) && Sized(disk)
      requires |deliveries| == |done| && forall i :: 0 <= i < |deliveries| ==> |deliveries[i].mem| == |mem|
      requires Led(disk, hostBase, p, events, Here())
      modifies this`slots, this`free, this`used, this`mem, this`ledger, this`pending, this`writes, this`wantDrain
      modifies engine
      ensures Valid() && pending == {} && |mem| == |old(mem)| && taken <= |offers|
      ensures Led(disk, hostBase, p, events + PassEvents(enabled, done, deliveries, offers, taken, junk), Here())
      ensures !enabled ==> used == old(used) && writes == old(writes) && !wantDrain && taken == 0
      ensures !enabled ==> engine.outstanding == old(engine.outstanding)
      ensures enabled ==> (wantDrain <==> old(wantDrain) && !CanAccept())
      ensures enabled && old(wantDrain) && taken < |offers| ==> !CanAccept()
      ensures enabled && !old(wantDrain) ==> taken == 0
    {
      if enabled {
        taken := Serve(done, deliveries, offers, junk, p, events);
      } else {
        taken := 0;
        ReleaseAll(done, deliveries, p, events);
        wantDrain := false;
      }
    }

    /** The part of a pass that may write to the guest. */
    method Serve(done: seq<Done>, deliveries: seq<Delivery>, offers: seq<Offer>, junk: seq<Byte>,
                 ghost p: Point, ghost events: seq<Event>) returns (taken: nat)
      requires Valid() && enabled && pending == Tokens(done) && Distinct(done) && Sized(disk)
      requires |deliveries| == |done| && forall i :: 0 <= i < |deliveries| ==> |deliveries[i].mem| == |mem|
      requires Led(disk, hostBase, p, events, Here())
      modifies this`slots, this`free, this`used, this`mem, this`ledger, this`pending, this`writes, this`wantDrain
      modifies engine
      ensures Valid() && pending == {} && |mem| == |old(mem)| && taken <= |offers|
      ensures Led(disk, hostBase, p, events + PassEvents(true, done, deliveries, offers, taken, junk), Here())
      ensures wantDrain <==> old(wantDrain) && !CanAccept()
      ensures old(wantDrain) && taken < |offers| ==> !CanAccept()
      ensures !old(wantDrain) ==> taken == 0
    {
      ghost var soFar := events + Handlings(done, deliveries, |done|, junk);
      CompleteAll(done, deliveries, junk, p, events);
      NoTakings(soFar, offers, junk);
      taken := 0;
      if wantDrain {
        taken := Drain(offers, junk, p, soFar);
      }
      Joined(events, Handlings(done, deliveries, |done|, junk), Takings(offers, taken, junk));
    }

    /** Completions for a queue that is gone: slots come back, nothing is written. */
    method ReleaseAll(done: seq<Done>, deliveries: seq<Delivery>, ghost p: Point, ghost events: seq<Event>)
      requires Valid() && !enabled && pending == Tokens(done) && Distinct(done)
      requires |deliveries| == |done| && forall i :: 0 <= i < |deliveries| ==> |deliveries[i].mem| == |mem|
      requires Led(disk, hostBase, p, events, Here())
      modifies this`slots, this`free, this`mem, this`ledger, this`pending
      ensures Valid() && pending == {} && |mem| == |old(mem)|
      ensures Led(disk, hostBase, p, events + Discards(done, deliveries, |done|), Here())
    {
      AllFrom(done);
      NothingMore(events);
      var i := 0;
      while i < |done|
        invariant 0 <= i <= |done| && Valid() && |mem| == |old(mem)|
        invariant pending == TokensFrom(done, i)
        invariant Led(disk, hostBase, p, events + Discards(done, deliveries, i), Here())
      {
        ReleaseNext(done, deliveries, i, p, events);
        i := i + 1;
      }
    }

    method ReleaseNext(done: seq<Done>, deliveries: seq<Delivery>, i: nat, ghost p: Point, ghost events: seq<Event>)
      requires Valid() && !enabled && i < |done| == |deliveries| && Distinct(done) && pending == TokensFrom(done, i)
      requires |deliveries[i].mem| == |mem| && Led(disk, hostBase, p, events + Discards(done, deliveries, i), Here())
      modifies this`slots, this`free, this`mem, this`ledger, this`pending
      ensures Valid() && pending == TokensFrom(done, i + 1) && |mem| == |old(mem)|
      ensures Led(disk, hostBase, p, events + Discards(done, deliveries, i + 1), Here())
    {
      NextInHand(done, i);
      DropSlot(done[i], deliveries[i]);
      var e := Discarded(done[i], deliveries[i]);
      LedGrows(disk, hostBase, p, events + Discards(done, deliveries, i), old(Here()), e, Here());
      Joined(events, Discards(done, deliveries, i), [e]);
    }

    method DropSlot(d: Done, delivered: Delivery)
      requires Valid() && !enabled && d.token in pending && |delivered.mem| == |mem|
      modifies this`slots, this`free, this`mem, this`ledger, this`pending
      ensures Valid() && pending == old(pending) - {d.token} && |mem| == |old(mem)|
      ensures Dropped(old(Here()), d, delivered, Here())
    {
      HandFacts(View(), d.token);
      mem := delivered.mem;
      GiveSlotBack(d.token);
    }

    method CompleteAll(done: seq<Done>, deliveries: seq<Delivery>, junk: seq<Byte>, ghost p: Point,
                       ghost events: seq<Event>)
      requires Valid() && enabled && pending == Tokens(done) && Distinct(done)
      requires |deliveries| == |done| && forall i :: 0 <= i < |deliveries| ==> |deliveries[i].mem| == |mem|
      requires Led(disk, hostBase, p, events, Here())
      modifies this`slots, this`free, this`used, this`mem, this`ledger, this`pending, this`writes, engine
      ensures Valid() && pending == {} && |mem| == |old(mem)|
      ensures Led(disk, hostBase, p, events + Handlings(done, deliveries, |done|, junk), Here())
    {
      AllFrom(done);
      NothingMore(events);
      var i := 0;
      while i < |done|
        invariant 0 <= i <= |done| && Valid() && |mem| == |old(mem)|
        invariant pending == TokensFrom(done, i)
        invariant Led(disk, hostBase, p, events + Handlings(done, deliveries, i, junk), Here())
      {
        CompleteNext(done, deliveries, i, junk, p, events);
        i := i + 1;
      }
    }

    method CompleteNext(done: seq<Done>, deliveries: seq<Delivery>, i: nat, junk: seq<Byte>,
                        ghost p: Point, ghost events: seq<Event>)
      requires Valid() && enabled && i < |done| == |deliveries| && Distinct(done) && pending == TokensFrom(done, i)
      requires |deliveries[i].mem| == |mem|
      requires Led(disk, hostBase, p, events + Handlings(done, deliveries, i, junk), Here())
      modifies this`slots, this`free, this`used, this`mem, this`ledger, this`pending, this`writes, engine
      ensures Valid() && pending == TokensFrom(done, i + 1) && |mem| == |old(mem)|
      ensures Led(disk, hostBase, p, events + Handlings(done, deliveries, i + 1, junk), Here())
    {
      NextInHand(done, i);
      Complete(done[i], deliveries[i], junk);
      var e := Handled(done[i], deliveries[i], junk);
      LedGrows(disk, hostBase, p, events + Handlings(done, deliveries, i, junk), old(Here()), e, Here());
      Joined(events, Handlings(done, deliveries, i, junk), [e]);
    }

    /** `drain`: take what is offered, in order, while there is room; done draining only with room
        left. */
    method Drain(offers: seq<Offer>, junk: seq<Byte>, ghost p: Point, ghost events: seq<Event>) returns (taken: nat)
      requires Valid() && enabled && pending == {} && Sized(disk) && Led(disk, hostBase, p, events, Here())
      modifies this`slots, this`free, this`used, this`mem, this`ledger, this`writes, this`wantDrain, engine
      ensures Valid() && pending == {} && |mem| == |old(mem)| && taken <= |offers|
      ensures Led(disk, hostBase, p, events + Takings(offers, taken, junk), Here())
      ensures taken < |offers| ==> !CanAccept()
      ensures wantDrain == (old(wantDrain) && !CanAccept())
    {
      taken := TakeWhileRoom(offers, junk, p, events);
      RestIfRoom();
    }

    method TakeWhileRoom(offers: seq<Offer>, junk: seq<Byte>, ghost p: Point, ghost events: seq<Event>)
      returns (taken: nat)
      requires Valid() && enabled && pending == {} && Sized(disk) && Led(disk, hostBase, p, events, Here())
      modifies this`slots, this`free, this`used, this`mem, this`ledger, this`writes, engine
      ensures Valid() && pending == {} && |mem| == |old(mem)| && taken <= |offers|
      ensures Led(disk, hostBase, p, events + Takings(offers, taken, junk), Here())
      ensures taken < |offers| ==> !CanAccept()
    {
      NoTakings(events, offers, junk);
      taken := 0;
      while taken < |offers| && CanAccept()
        invariant taken <= |offers| && Valid() && pending == {} && |mem| == |old(mem)|
        invariant Led(disk, hostBase, p, events + Takings(offers, taken, junk), Here())
      {
        StartNext(offers, taken, junk, p, events);
        taken := taken + 1;
      }
    }

    method RestIfRoom()
      requires Valid()
      modifies this`wantDrain
      ensures Valid() && Here() == old(Here()) && CanAccept() == old(CanAccept())
      ensures wantDrain == (old(wantDrain) && !CanAccept())
    {
      if CanAccept() {
        wantDrain := false;
      }
    }

    method StartNext(offers: seq<Offer>, i: nat, junk: seq<Byte>, ghost p: Point, ghost events: seq<Event>)
      requires Valid() && enabled && CanAccept() && pending == {} && Sized(disk) && i < |offers|
      requires Led(disk, hostBase, p, events + Takings(offers, i, junk), Here())
      modifies this`slots, this`free, this`used, this`mem, this`ledger, this`writes, engine
      ensures Valid() && pending == {} && |mem| == |old(mem)|
      ensures Led(disk, hostBase, p, events + Takings(offers, i + 1, junk), Here())
    {
      Start(offers[i], junk);
      var e := Taken(offers[i], junk);
      LedGrows(disk, hostBase, p, events + Takings(offers, i, junk), old(Here()), e, Here());
      Joined(events, Takings(offers, i, junk), [e]);
    }

    // ---- the control plane ----

    /** The queue's part of a device reset, taken under the queue lock. */
    method Reset()
      requires Valid()
      modifies this`generation, this`enabled
      ensures Valid() && !enabled && Moved(old(View()), Bump, View())
    {
      ReachedAfter(View(), Bump);
      enabled := false;
      generation := generation + 1;
    }

    /** The control plane switches the queue on or off. */
    method SetEnabled(on: bool)
      requires Valid()
      modifies this`enabled
      ensures Valid() && enabled == on && Moved(old(View()), Switch(on), View())
    {
      ReachedAfter(View(), Switch(on));
      enabled := on;
    }
  }

  ghost const ANSWER := [Payload, StatusByte, UsedElement]

  function IdLen(total: nat): nat {
    1 + if total < |DISK_ID| then total else |DISK_ID|
  }

  lemma AcceptedParses(mem: seq<Byte>, d: Disk, head: nat, descs: seq<Desc>)
    requires Parse(mem, d, head, descs).Accepted? && Sized(d)
    ensures Parsed(Parse(mem, d, head, descs).req, |mem|)
  {
    AcceptedIsSafe(mem, d, head, descs);
  }

  /** The tokens of `done[i..]`. */
  function TokensFrom(done: seq<Done>, i: nat): set<nat>
    requires i <= |done|
    decreases |done| - i
  {
    if i == |done| then {} else {done[i].token} + TokensFrom(done, i + 1)
  }

  lemma {:induction false} TokensSplit(done: seq<Done>, i: nat)
    requires i <= |done|
    ensures Tokens(done) == Tokens(done[..i]) + TokensFrom(done, i)
    decreases |done| - i
  {
    if i == |done| {
      assert done[..i] == done;
    } else {
      TokensSplit(done, i + 1);
      assert done[..i + 1][..i] == done[..i];
    }
  }

  lemma AllFrom(done: seq<Done>)
    ensures Tokens(done) == TokensFrom(done, 0)
  {
    TokensSplit(done, 0);
    assert done[..0] == [];
  }

  lemma {:induction false} DistinctAt(done: seq<Done>, i: nat, j: nat)
    requires Distinct(done) && i < j < |done|
    ensures done[i].token != done[j].token
    decreases |done|
  {
    var front := done[..|done| - 1];
    if j == |done| - 1 {
      TokenIn(front, i);
    } else {
      DistinctAt(front, i, j);
    }
  }

  lemma {:induction false} TokenIn(done: seq<Done>, i: nat)
    requires i < |done|
    ensures done[i].token in Tokens(done)
  {
    if i < |done| - 1 {
      TokenIn(done[..|done| - 1], i);
    }
  }

  lemma {:induction false} NotLater(done: seq<Done>, i: nat, j: nat)
    requires Distinct(done) && i < j <= |done|
    ensures done[i].token !in TokensFrom(done, j)
    decreases |done| - j
  {
    if j < |done| {
      DistinctAt(done, i, j);
      NotLater(done, i, j + 1);
    }
  }

  lemma NextInHand(done: seq<Done>, i: nat)
    requires i < |done| && Distinct(done)
    ensures done[i].token in TokensFrom(done, i)
    ensures TokensFrom(done, i + 1) == TokensFrom(done, i) - {done[i].token}
  {
    NotLater(done, i, i + 1);
  }

  lemma BelowDepth(c: Slab)
    requires Reached(c)
    ensures |c.outstanding| + |c.pending| < c.depth
  {
    ReachedOk(c);
  }
}
