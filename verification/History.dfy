/** Everything that happens to one queue, in order: what the worker does, what the kernel does for it,
    and what others do meanwhile. Each request held in a slot is then in the middle of a run of its
    own, and what the worker tells the driver about it is true. */
module History {
  import opened Segments
  import opened Wrappers
  import opened Disk
  import opened Transfer
  import opened Requests
  import opened Engine
  import opened Slab
  import opened Workers

  /** The worker's books, guest memory and the backing file. */
  datatype Scene = Scene(slab: Slab, mem: seq<Byte>, file: seq<Byte>)

  function WorldOf(a: Scene): World {
    World(a.mem, a.file)
  }

  function PointOf(a: Scene): Point {
    Point(a.slab, a.mem)
  }

  predicate Held(slots: seq<Option<Slot>>, t: nat) {
    t < |slots| && slots[t].Some?
  }

  // ---- everybody else's part ----

  /** Where in the file the request's data is. */
  function Origin(s: Slot): nat {
    if s.offset + Skip(s) >= s.done then s.offset + Skip(s) - s.done else 0
  }

  /** The part of the file a job may change. */
  function FileFrom(s: Slot): nat {
    match s.op
    case Write => Origin(s)
    case Discard(sector, _) => sector * SECTOR_SIZE
    case WriteZeroes(sector, _, _) => sector * SECTOR_SIZE
    case _ => 0
  }

  function FileTo(s: Slot): nat {
    match s.op
    case Write => Origin(s) + if s.total == 0 then 1 else s.total
    case Discard(sector, sectors) => (sector + sectors) * SECTOR_SIZE
    case WriteZeroes(sector, sectors, _) => (sector + sectors) * SECTOR_SIZE
    case _ => 0
  }

  /** The kernel's part of a finished job. */
  ghost predicate KernelDid(s: Slot, w: World, result: int, s1: Slot, w1: World) {
    match s.op
    case Read => KernelReads(s, w, result, s1, w1)
    case Write => KernelWrites(s, w, result, s1, w1)
    case _ => s1 == s && w1.mem == w.mem && SameFileOutside(w1.file, w.file, FileFrom(s), FileTo(s))
  }

  /** Neither the pages of a request in flight nor its part of the file changed. */
  ghost predicate Undisturbed(s: Slot, w: World, w': World) {
    && |w'.mem| == |w.mem|
    && (forall a :: 0 <= a < |w.mem| && Covers(s.segments, a) ==> w'.mem[a] == w.mem[a])
    && SameFileIn(w'.file, w.file, Origin(s), Origin(s) + s.total)
  }

  ghost predicate AllUndisturbed(slots: seq<Option<Slot>>, w: World, w': World) {
    forall t: nat :: Held(slots, t) && slots[t].value.op.Moves() ==> Undisturbed(slots[t].value, w, w')
  }

  /** What is asked of the guest: while requests are in flight it leaves their pages and their part of the
      file alone, also through other queues and through requests answered on the spot; and of
      the kernel: that a finished job did what such a job does. */
  ghost predicate OthersDid(a: Scene, e: Event, b: Scene) {
    match e
    case Outside => AllUndisturbed(a.slab.slots, WorldOf(a), WorldOf(b))
    case Control(_) => b.file == a.file
    case Reaped(_) => b.file == a.file
    case Handled(d, delivered, _) => KernelFinished(a, d, delivered, b.file)
    case Discarded(d, delivered) => KernelFinished(a, d, delivered, b.file)
    case Taken(_, _) => b.file == a.file && AllUndisturbed(a.slab.slots, WorldOf(a), WorldOf(b))
  }

  ghost predicate KernelFinished(a: Scene, d: Done, delivered: Delivery, file: seq<Byte>) {
    && Held(a.slab.slots, d.token)
    && var s := a.slab.slots[d.token].value;
       KernelDid(s, WorldOf(a), d.result, HandedBack(s, delivered.buf), World(delivered.mem, file))
  }

  /** One request's doings are none of the other's business. */
  ghost predicate Spares(s: Slot, u: Slot) {
    && !Covers(u.segments, s.statusAddr)
    && (s.op.Read? ==> forall a :: Covers(s.segments, a) ==> !Covers(u.segments, a))
    && (FileTo(s) <= Origin(u) || Origin(u) + u.total <= FileFrom(s) || FileFrom(s) == FileTo(s))
  }

  /** Nor does the guest ask for requests in flight that get in each other's way. */
  ghost predicate InFlightApart(slots: seq<Option<Slot>>) {
    forall t: nat, u: nat :: t != u && Held(slots, t) && Held(slots, u) && slots[u].value.op.Moves() ==>
      Spares(slots[t].value, slots[u].value)
  }

  function SceneAt(points: seq<Point>, files: seq<seq<Byte>>, i: nat): Scene
    requires i < |points| == |files|
  {
    Scene(points[i].slab, points[i].mem, files[i])
  }

  /** What the worker did from its first day, with what the file was at each point. */
  ghost predicate IsHistory(disk: Disk, base: nat, points: seq<Point>, files: seq<seq<Byte>>, events: seq<Event>)
    requires Probed(disk)
  {
    && IsTrace(disk, base, points, events) && |files| == |points|
    && points[0].slab.depth >= 2 && points[0].slab == Empty(points[0].slab.depth, |points[0].mem|)
    && forall i :: 0 <= i < |events| ==>
         && OthersDid(SceneAt(points, files, i), events[i], SceneAt(points, files, i + 1))
         && InFlightApart(points[i].slab.slots)
  }

  // ---- requests in the middle of a run ----

  /** This slot, in this world, is where some run of its request has come. */
  ghost predicate HasRun(disk: Disk, base: nat, s: Slot, w: World)
    requires Probed(disk)
  {
    exists req, junk, phases, labels ::
      Transfer.IsRun(disk, base, req, junk, phases, labels) && req.op == s.op && phases[|labels|] == InFlight(s, w)
  }

  /** What the driver asked for, from the slot. */
  function Asked(s: Slot): Request {
    Request(s.head, s.op, Origin(s), s.segments, s.total, s.statusAddr)
  }

  lemma RunExtends(disk: Disk, base: nat, req: Request, junk: seq<Byte>, phases: seq<Phase>, labels: seq<Label>,
                   l: Label, p: Phase)
    requires Probed(disk) && Transfer.IsRun(disk, base, req, junk, phases, labels)
    requires Step(disk, req, phases[|labels|], l, p)
    ensures Transfer.IsRun(disk, base, req, junk, phases + [p], labels + [l])
  {
    var longer, more := phases + [p], labels + [l];
    forall i | 0 <= i < |more| ensures Step(disk, req, longer[i], more[i], longer[i + 1]) {
      assert i < |labels| ==> longer[i] == phases[i] && longer[i + 1] == phases[i + 1] && more[i] == labels[i];
    }
  }

  /** A slot with a run is the request's own, wherever it has come. */
  lemma RunShape(disk: Disk, base: nat, req: Request, junk: seq<Byte>, phases: seq<Phase>, labels: seq<Label>,
                 s: Slot, w: World)
    requires Probed(disk) && Transfer.IsRun(disk, base, req, junk, phases, labels)
    requires req.op == s.op && s.op.Moves() && phases[|labels|] == InFlight(s, w)
    ensures req == Asked(s) && Carries(req, s, |w.mem|) && Positioned(req, s)
    ensures s.op.Write? ==> WriteShaped(req, s, |w.mem|)
  {
    if s.op.Read? {
      RunKeepsReadInv(disk, base, req, junk, phases, labels, |labels|);
    } else {
      RunKeepsShape(disk, base, req, junk, phases, labels, |labels|);
    }
  }

  lemma HasShape(disk: Disk, base: nat, s: Slot, w: World)
    requires Probed(disk) && HasRun(disk, base, s, w) && s.op.Moves()
    ensures Carries(Asked(s), s, |w.mem|) && Positioned(Asked(s), s)
    ensures s.op.Write? ==> WriteShaped(Asked(s), s, |w.mem|)
  {
    var req, junk, phases, labels :|
      Transfer.IsRun(disk, base, req, junk, phases, labels) && req.op == s.op && phases[|labels|] == InFlight(s, w);
    RunShape(disk, base, req, junk, phases, labels, s, w);
  }

  lemma RunWaits(disk: Disk, base: nat, s: Slot, w: World, w': World)
    requires Probed(disk) && HasRun(disk, base, s, w) && s.op.Moves() && Undisturbed(s, w, w')
    ensures HasRun(disk, base, s, w')
  {
    var req, junk, phases, labels :|
      Transfer.IsRun(disk, base, req, junk, phases, labels) && req.op == s.op && phases[|labels|] == InFlight(s, w);
    RunShape(disk, base, req, junk, phases, labels, s, w);
    RunExtends(disk, base, req, junk, phases, labels, Interfere, InFlight(s, w'));
    var longer, more := phases + [InFlight(s, w')], labels + [Interfere];
    assert longer[|more|] == InFlight(s, w');
  }

  lemma RunGoesOn(disk: Disk, base: nat, s: Slot, w: World, result: int, s1: Slot, w1: World, junk: seq<Byte>, p: Phase)
    returns (made: seq<Byte>, phases: seq<Phase>, labels: seq<Label>)
    requires Probed(disk) && HasRun(disk, base, s, w) && s.op.Moves() && KernelDid(s, w, result, s1, w1)
    requires Sound(s1, |w1.mem|) && Leads(disk, s1, w1, result, junk, p)
    ensures Transfer.IsRun(disk, base, Asked(s), made, phases, labels) && |labels| > 0
    ensures labels[|labels| - 1] == Completion(result, s1, w1, junk)
    ensures phases[|labels| - 1] == InFlight(s, w) && phases[|labels|] == p
  {
    var req, made', before, so_far :|
      Transfer.IsRun(disk, base, req, made', before, so_far) && req.op == s.op && before[|so_far|] == InFlight(s, w);
    RunShape(disk, base, req, made', before, so_far, s, w);
    made := made';
    RunExtends(disk, base, req, made, before, so_far, Completion(result, s1, w1, junk), p);
    phases, labels := before + [p], so_far + [Completion(result, s1, w1, junk)];
  }

  lemma RunStarts(disk: Disk, base: nat, req: Request, junk: seq<Byte>, generation: nat, s: Slot, w: World)
    requires Probed(disk) && Parsed(req, |w.mem|)
    requires Prepare(disk, base, w.mem, req, generation, junk) == Some(s)
    ensures HasRun(disk, base, s, w)
  {
    assert s.generation == generation && s.op == req.op;
    var phases, labels: seq<Label> := [InFlight(s, w)], [];
    assert Transfer.IsRun(disk, base, req, junk, phases, labels);
    assert phases[|labels|] == InFlight(s, w);
  }

  // ---- what one job may change ----

  ghost predicate Within(s: Slot, w: World, w': World) {
    && |w'.mem| == |w.mem|
    && (forall a :: 0 <= a < |w.mem| && a != s.statusAddr && !(s.op.Read? && Covers(s.segments, a)) ==>
          w'.mem[a] == w.mem[a])
    && SameFileOutside(w'.file, w.file, FileFrom(s), FileTo(s))
  }

  lemma WithinSpares(s: Slot, u: Slot, w: World, w': World)
    requires Within(s, w, w') && Spares(s, u)
    ensures Undisturbed(u, w, w')
  {
    forall a | 0 <= a < |w.mem| && Covers(u.segments, a) ensures w'.mem[a] == w.mem[a] {
    }
  }

  lemma KernelWithin(disk: Disk, base: nat, s: Slot, w: World, result: int, s1: Slot, w1: World)
    requires Probed(disk) && (s.op.Moves() ==> HasRun(disk, base, s, w)) && KernelDid(s, w, result, s1, w1)
    ensures Within(s, w, w1)
  {
    if s.op.Moves() {
      HasShape(disk, base, s, w);
      if s.op.Read? {
        KernelReadKeepsShape(Asked(s), s, w, result, s1, w1);
        KernelReadTouches(Asked(s), s, w, result, s1, w1);
      } else {
        KernelWriteTouches(Asked(s), s, w, result, s1, w1);
      }
    }
  }

  lemma ReadWithin(req: Request, s: Slot, w: World, p: Phase)
    requires ReadStays(req, w, p) && req == Asked(s) && s.op.Read?
    ensures Within(s, w, p.w)
  {
    forall a | 0 <= a < |w.mem| && a != s.statusAddr && !Covers(s.segments, a) ensures p.w.mem[a] == w.mem[a] {
      OwnedIs(req, a);
    }
  }

  lemma OwnedIs(req: Request, a: int)
    ensures Covers(Owned(req), a) ==> Covers(req.segments, a) || a == req.statusAddr
  {
    if Covers(Owned(req), a) {
      var i :| 0 <= i < |Owned(req)| && Owned(req)[i].addr <= a < Owned(req)[i].addr + Owned(req)[i].len;
      if i < |req.segments| {
        assert Owned(req)[i] == req.segments[i];
      }
    }
  }

  lemma OtherWithin(disk: Disk, s: Slot, w: World, w1: World, result: int, junk: seq<Byte>, p: Phase)
    requires Probed(disk) && Sound(s, |w1.mem|) && !s.op.Moves() && w1.mem == w.mem
    requires SameFileOutside(w1.file, w.file, FileFrom(s), FileTo(s)) && Leads(disk, s, w1, result, junk, p)
    ensures Within(s, w, p.w) && (p.InFlight? ==> p.slot == s)
  {
  }

  lemma DoneWithin(
    disk: Disk, base: nat, s: Slot, w: World, result: int, s1: Slot, w1: World, junk: seq<Byte>, p: Phase)
    requires Probed(disk) && (s.op.Moves() ==> HasRun(disk, base, s, w)) && KernelDid(s, w, result, s1, w1)
    requires Sound(s1, |w1.mem|) && Leads(disk, s1, w1, result, junk, p)
    ensures Within(s, w, p.w)
  {
    if !s.op.Moves() {
      OtherWithin(disk, s, w, w1, result, junk, p);
    } else {
      HasShape(disk, base, s, w);
      if s.op.Read? {
        KernelReadKeepsShape(Asked(s), s, w, result, s1, w1);
        ReadStepTouches(disk, Asked(s), s, w, result, s1, w1, junk, p);
        ReadWithin(Asked(s), s, w, p);
      } else {
        WriteStepTouches(disk, Asked(s), s, w, result, s1, w1, junk, p);
      }
    }
  }

  // ---- every request in flight has its run ----

  ghost predicate Backed(disk: Disk, base: nat, slots: seq<Option<Slot>>, w: World)
    requires Probed(disk)
  {
    forall t: nat :: Held(slots, t) && slots[t].value.op.Moves() ==> HasRun(disk, base, slots[t].value, w)
  }

  lemma BackedWaits(disk: Disk, base: nat, slots: seq<Option<Slot>>, w: World, w': World)
    requires Probed(disk) && Backed(disk, base, slots, w) && AllUndisturbed(slots, w, w')
    ensures Backed(disk, base, slots, w')
  {
    forall t: nat | Held(slots, t) && slots[t].value.op.Moves() ensures HasRun(disk, base, slots[t].value, w') {
      RunWaits(disk, base, slots[t].value, w, w');
    }
  }

  /** One slot's job changes what it may: the others go on undisturbed. */
  lemma BackedBeside(disk: Disk, base: nat, slots: seq<Option<Slot>>, t: nat, w: World, w': World)
    requires Probed(disk) && Backed(disk, base, slots, w) && InFlightApart(slots) && Held(slots, t)
    requires Within(slots[t].value, w, w')
    ensures Backed(disk, base, slots[t := None], w')
  {
    var rest := slots[t := None];
    forall u: nat | Held(rest, u) && rest[u].value.op.Moves() ensures HasRun(disk, base, rest[u].value, w') {
      assert rest[u] == slots[u] && u != t && Held(slots, u);
      WithinSpares(slots[t].value, slots[u].value, w, w');
      RunWaits(disk, base, slots[u].value, w, w');
    }
  }

  lemma BackedWith(disk: Disk, base: nat, slots: seq<Option<Slot>>, t: nat, s: Slot, w: World)
    requires Probed(disk) && Backed(disk, base, slots, w) && t < |slots|
    requires s.op.Moves() ==> HasRun(disk, base, s, w)
    ensures Backed(disk, base, slots[t := Some(s)], w)
  {
    var more := slots[t := Some(s)];
    forall u: nat | Held(more, u) && more[u].value.op.Moves() ensures HasRun(disk, base, more[u].value, w) {
      assert u != t ==> Held(slots, u) && more[u] == slots[u];
    }
  }

  /** What a move of the books does to the slots. */
  lemma MoveSlots(c: Slab, m: Move, d: Slab)
    requires Moved(c, m, d)
    ensures match m
      case AnswerSlot(t, _, _) => t < |c.slots| && d.slots == c.slots[t := None]
      case GiveBack(t) => t < |c.slots| && d.slots == c.slots[t := None]
      case Resume(t, s) => t < |c.slots| && d.slots == c.slots[t := Some(s)]
      case Hold(s) =>
        && c.free != [] && c.free[|c.free| - 1] < |c.slots|
        && d.slots == c.slots[c.free[|c.free| - 1] := Some(s)]
      case _ => d.slots == c.slots
  {
  }

  lemma AgainKeepsOp(disk: Disk, s: Slot, mem: seq<Byte>, result: int, junk: seq<Byte>)
    requires Probed(disk) && Sound(s, |mem|)
    ensures var o := OnDone(disk, s, mem, result, junk); o.Again? ==> o.slot.op == s.op
  {
  }

  /** A job that goes back to the engine takes its run along. */
  lemma ResumedHasRun(disk: Disk, base: nat, s: Slot, w: World, result: int, s1: Slot, w1: World, junk: seq<Byte>,
                      t: Slot)
    requires Probed(disk) && HasRun(disk, base, s, w) && s.op.Moves() && KernelDid(s, w, result, s1, w1)
    requires Sound(s1, |w1.mem|) && Leads(disk, s1, w1, result, junk, InFlight(t, w1)) && t.op == s.op
    ensures HasRun(disk, base, t, w1)
  {
    var made, phases, labels := RunGoesOn(disk, base, s, w, result, s1, w1, junk, InFlight(t, w1));
  }

  lemma ReplacedSlot(slots: seq<Option<Slot>>, t: nat, s: Option<Slot>)
    requires t < |slots|
    ensures slots[t := None][t := s] == slots[t := s]
  {
  }

  lemma HandledKeeps(disk: Disk, base: nat, a: Scene, d: Done, delivered: Delivery, junk: seq<Byte>, b: Scene)
    requires Probed(disk) && Backed(disk, base, a.slab.slots, WorldOf(a)) && InFlightApart(a.slab.slots)
    requires Completed(disk, PointOf(a), d, delivered, junk, PointOf(b)) && KernelFinished(a, d, delivered, b.file)
    ensures Backed(disk, base, b.slab.slots, WorldOf(b))
  {
    var slots, t, w, w1 := a.slab.slots, d.token, WorldOf(a), World(delivered.mem, b.file);
    var s := slots[t].value;
    var s1 := HandedBack(s, delivered.buf);
    if s1.generation != a.slab.generation {
      KernelWithin(disk, base, s, w, d.result, s1, w1);
      BackedBeside(disk, base, slots, t, w, w1);
      MoveSlots(a.slab, GiveBack(t), b.slab);
    } else {
      match OnDone(disk, s1, delivered.mem, d.result, junk)
      case Again(left) =>
        DoneWithin(disk, base, s, w, d.result, s1, w1, junk, InFlight(left, w1));
        BackedBeside(disk, base, slots, t, w, w1);
        MoveSlots(a.slab, Resume(t, left), b.slab);
        AgainKeepsOp(disk, s1, delivered.mem, d.result, junk);
        if left.op.Moves() {
          ResumedHasRun(disk, base, s, w, d.result, s1, w1, junk, left);
        }
        BackedWith(disk, base, slots[t := None], t, left, w1);
        ReplacedSlot(slots, t, Some(left));
      case Finish(status, mem) =>
        DoneWithin(disk, base, s, w, d.result, s1, w1, junk, Transfer.Finished(status, WorldOf(b)));
        BackedBeside(disk, base, slots, t, w, WorldOf(b));
        MoveSlots(a.slab, AnswerSlot(t, UsedLen(status, s1.op, s1.total), ANSWER), b.slab);
    }
  }

  lemma DiscardedKeeps(disk: Disk, base: nat, a: Scene, d: Done, delivered: Delivery, b: Scene)
    requires Probed(disk) && Backed(disk, base, a.slab.slots, WorldOf(a)) && InFlightApart(a.slab.slots)
    requires Dropped(PointOf(a), d, delivered, PointOf(b)) && KernelFinished(a, d, delivered, b.file)
    ensures Backed(disk, base, b.slab.slots, WorldOf(b))
  {
    var s := a.slab.slots[d.token].value;
    KernelWithin(disk, base, s, WorldOf(a), d.result, HandedBack(s, delivered.buf), WorldOf(b));
    BackedBeside(disk, base, a.slab.slots, d.token, WorldOf(a), WorldOf(b));
    MoveSlots(a.slab, GiveBack(d.token), b.slab);
  }

  /** A chain that is taken changes no slot, or fills a free one with a request that is just prepared. */
  lemma StartedSlots(disk: Disk, base: nat, p: Point, offer: Offer, junk: seq<Byte>, q: Point)
    returns (held: Option<(Request, Slot)>)
    requires Probed(disk) && Started(disk, base, p, offer, junk, q)
    ensures match held
      case None => q.slab.slots == p.slab.slots
      case Some((req, s)) =>
        && Parsed(req, |p.mem|) && Prepare(disk, base, p.mem, req, p.slab.generation, junk) == Some(s)
        && q.mem == p.mem && Moved(p.slab, Hold(s), q.slab)
  {
    held := None;
    match Parse(p.mem, disk, offer.head, offer.descs)
    case Malformed => MoveSlots(p.slab, AnswerNow(Used(offer.head, 0), [UsedElement]), q.slab);
    case Rejected(addr, status) =>
      MoveSlots(p.slab, AnswerNow(Used(offer.head, 1), [StatusByte, UsedElement]), q.slab);
    case Accepted(req) =>
      if req.op.GetId? {
        MoveSlots(p.slab, AnswerNow(Used(req.head, IdLen(req.total)), ANSWER), q.slab);
      } else {
        match Prepare(disk, base, p.mem, req, p.slab.generation, junk)
        case Some(s) => held := Some((req, s));
        case None => MoveSlots(p.slab, AnswerNow(Used(req.head, 1), [StatusByte, UsedElement]), q.slab);
      }
  }

  lemma TakenKeeps(disk: Disk, base: nat, a: Scene, offer: Offer, junk: seq<Byte>, b: Scene)
    requires Probed(disk) && Backed(disk, base, a.slab.slots, WorldOf(a))
    requires Started(disk, base, PointOf(a), offer, junk, PointOf(b)) && b.file == a.file
    requires AllUndisturbed(a.slab.slots, WorldOf(a), WorldOf(b))
    ensures Backed(disk, base, b.slab.slots, WorldOf(b))
  {
    BackedWaits(disk, base, a.slab.slots, WorldOf(a), WorldOf(b));
    var held := StartedSlots(disk, base, PointOf(a), offer, junk, PointOf(b));
    match held
    case None =>
    case Some((req, s)) =>
      MoveSlots(a.slab, Hold(s), b.slab);
      RunStarts(disk, base, req, junk, a.slab.generation, s, WorldOf(b));
      BackedWith(disk, base, a.slab.slots, a.slab.free[|a.slab.free| - 1], s, WorldOf(b));
  }

  lemma EventKeeps(disk: Disk, base: nat, a: Scene, e: Event, b: Scene)
    requires Probed(disk) && Backed(disk, base, a.slab.slots, WorldOf(a)) && InFlightApart(a.slab.slots)
    requires WorkerDid(disk, base, PointOf(a), e, PointOf(b)) && OthersDid(a, e, b)
    ensures Backed(disk, base, b.slab.slots, WorldOf(b))
  {
    match e
    case Outside => BackedWaits(disk, base, a.slab.slots, WorldOf(a), WorldOf(b));
    case Control(m) => MoveSlots(a.slab, m, b.slab);
    case Reaped(tokens) => MoveSlots(a.slab, Collect(tokens), b.slab);
    case Handled(d, delivered, junk) => HandledKeeps(disk, base, a, d, delivered, junk, b);
    case Discarded(d, delivered) => DiscardedKeeps(disk, base, a, d, delivered, b);
    case Taken(offer, junk) => TakenKeeps(disk, base, a, offer, junk, b);
  }

  /** At every point of every history each read or write in a slot is in the middle of a run of its own:
      however completions, resets and other requests fell between. */
  lemma {:induction false} EverySlotHasARun(
    disk: Disk, base: nat, points: seq<Point>, files: seq<seq<Byte>>, events: seq<Event>, i: nat)
    requires Probed(disk) && IsHistory(disk, base, points, files, events) && i < |points|
    ensures Backed(disk, base, points[i].slab.slots, World(points[i].mem, files[i]))
  {
    if i > 0 {
      EverySlotHasARun(disk, base, points, files, events, i - 1);
      EventKeeps(disk, base, SceneAt(points, files, i - 1), events[i - 1], SceneAt(points, files, i));
    }
  }

  // ---- what the driver is told is true ----

  /** The job handled at this event was answered. */
  ghost predicate Answered(a: Scene, e: Event, b: Scene, s: Slot, len: nat) {
    && e.Handled? && Held(a.slab.slots, e.d.token) && s == a.slab.slots[e.d.token].value
    && b.slab.used == a.slab.used + [Used(s.head, len)]
  }

  /** Only a finished request is, with its status byte written. */
  lemma AnsweredFinished(disk: Disk, a: Scene, e: Event, b: Scene, s: Slot, len: nat)
    requires Probed(disk) && e.Handled? && Completed(disk, PointOf(a), e.d, e.delivered, e.junk, PointOf(b))
    requires Answered(a, e, b, s, len)
    ensures var s1, w1 := HandedBack(s, e.delivered.buf), World(e.delivered.mem, b.file);
      && Sound(s1, |w1.mem|) && OnDone(disk, s1, w1.mem, e.d.result, e.junk).Finish?
      && var status := OnDone(disk, s1, w1.mem, e.d.result, e.junk).status;
         && len == UsedLen(status, s.op, s.total) && status < 256
         && Leads(disk, s1, w1, e.d.result, e.junk, Transfer.Finished(status, WorldOf(b)))
         && b.mem == WithStatus(OnDone(disk, s1, w1.mem, e.d.result, e.junk).mem, s.statusAddr, status)
  {
    var grown := b.slab.used;
    assert |grown| == |a.slab.used| + 1 && grown[|a.slab.used|] == Used(s.head, len);
    StatusIsSmall(disk, HandedBack(s, e.delivered.buf), e.delivered.mem, e.d.result, e.junk);
  }

  /** The run of an answered request, up to its answer. */
  lemma AnsweredRun(disk: Disk, base: nat, a: Scene, e: Event, b: Scene, s: Slot, status: nat)
    returns (made: seq<Byte>, phases: seq<Phase>, labels: seq<Label>)
    requires Probed(disk) && e.Handled? && KernelFinished(a, e.d, e.delivered, b.file)
    requires s == a.slab.slots[e.d.token].value && s.op.Moves() && HasRun(disk, base, s, WorldOf(a))
    requires var s1, w1 := HandedBack(s, e.delivered.buf), World(e.delivered.mem, b.file);
      Sound(s1, |w1.mem|) && Leads(disk, s1, w1, e.d.result, e.junk, Transfer.Finished(status, WorldOf(b)))
    ensures Transfer.IsRun(disk, base, Asked(s), made, phases, labels) && |labels| > 0
    ensures phases[|labels| - 1] == InFlight(s, WorldOf(a))
    ensures phases[|labels|] == Transfer.Finished(status, WorldOf(b))
  {
    made, phases, labels := RunGoesOn(disk, base, s, WorldOf(a), e.d.result, HandedBack(s, e.delivered.buf),
      World(e.delivered.mem, b.file), e.junk, Transfer.Finished(status, WorldOf(b)));
  }

  lemma ReadRunIsTrue(
    disk: Disk, base: nat, req: Request, junk: seq<Byte>, phases: seq<Phase>, labels: seq<Label>, w: World)
    requires Probed(disk) && Transfer.IsRun(disk, base, req, junk, phases, labels) && req.op.Read?
    requires phases[|labels|] == Transfer.Finished(BLK_S_OK, w)
    ensures Parsed(req, |w.mem|) && Landed(req, w)
    ensures var want := FileRange(w.file, req.offset, req.total);
      Gather(w.mem, req.segments) == want <==> Coherent(req, want)
  {
    RunKeepsReadInv(disk, base, req, junk, phases, labels, |labels|);
    LandedIff(req, w);
  }

  lemma WriteRunIsTrue(disk: Disk, base: nat, req: Request, junk: seq<Byte>, phases: seq<Phase>, labels: seq<Label>,
                       s: Slot, w: World, w': World)
    requires Probed(disk) && Transfer.IsRun(disk, base, req, junk, phases, labels) && req.op.Write? && req.total > 0
    requires |labels| > 0 && phases[|labels| - 1] == InFlight(s, w)
    requires phases[|labels|] == Transfer.Finished(BLK_S_OK, w')
    ensures InBounds(req.segments, |w.mem|)
    ensures FileRange(w'.file, req.offset, req.total) == Gather(w.mem, req.segments)
  {
    RunKeepsWriteInv(disk, base, req, junk, phases, labels, |labels| - 1);
    WriteRefinesFile(disk, base, req, junk, phases, labels, |labels|);
  }

  /** A used element that reports a read's data means it: over every history, when the worker publishes
      `total + 1` bytes for a read, the file's bytes are in the guest's segments, and the segments
      read as the file's range if and only if the request is coherent. */
  lemma PublishedReadIsTrue(
    disk: Disk, base: nat, points: seq<Point>, files: seq<seq<Byte>>, events: seq<Event>, i: nat, s: Slot)
    requires Probed(disk) && IsHistory(disk, base, points, files, events) && i < |events|
    requires Answered(SceneAt(points, files, i), events[i], SceneAt(points, files, i + 1), s, s.total + 1)
    requires s.op.Read? && s.total > 0
    ensures var b := SceneAt(points, files, i + 1);
      var want := FileRange(b.file, Origin(s), s.total);
      && Parsed(Asked(s), |b.mem|) && Landed(Asked(s), WorldOf(b))
      && (Gather(b.mem, s.segments) == want <==> Coherent(Asked(s), want))
  {
    var a, e, b := SceneAt(points, files, i), events[i], SceneAt(points, files, i + 1);
    EverySlotHasARun(disk, base, points, files, events, i);
    AnsweredFinished(disk, a, e, b, s, s.total + 1);
    var made, phases, labels := AnsweredRun(disk, base, a, e, b, s, BLK_S_OK);
    ReadRunIsTrue(disk, base, Asked(s), made, phases, labels, WorldOf(b));
  }

  /** And a status byte that reports a write means it: the file holds what the guest's segments held. */
  lemma PublishedWriteIsTrue(
    disk: Disk, base: nat, points: seq<Point>, files: seq<seq<Byte>>, events: seq<Event>, i: nat, s: Slot, len: nat)
    requires Probed(disk) && IsHistory(disk, base, points, files, events) && i < |events|
    requires Answered(SceneAt(points, files, i), events[i], SceneAt(points, files, i + 1), s, len)
    requires s.op.Write? && s.total > 0
    requires s.statusAddr < |points[i + 1].mem| && points[i + 1].mem[s.statusAddr] == BLK_S_OK
    ensures InBounds(s.segments, |points[i].mem|)
    ensures FileRange(files[i + 1], Origin(s), s.total) == Gather(points[i].mem, s.segments)
  {
    var a, e, b := SceneAt(points, files, i), events[i], SceneAt(points, files, i + 1);
    EverySlotHasARun(disk, base, points, files, events, i);
    AnsweredFinished(disk, a, e, b, s, len);
    var made, phases, labels := AnsweredRun(disk, base, a, e, b, s, BLK_S_OK);
    WriteRunIsTrue(disk, base, Asked(s), made, phases, labels, s, WorldOf(a), WorldOf(b));
  }

  // ---- and something is told ----

  /** A driver's read of the first sector, the ordinary way. */
  const PLAIN_READ: seq<Desc> := [Desc(0, 16, false), Desc(16, 512, true), Desc(1023, 1, true)]

  lemma PlainReadIsAccepted(disk: Disk, head: nat) returns (req: Request)
    requires disk.dio.None? && 512 <= LenBytes(disk) < Requests.U64
    ensures Parse(Zeroes(1024), disk, head, PLAIN_READ) == Accepted(req)
    ensures req == Request(head, Read, 0, [Seg(16, 512)], 512, 1023) && Parsed(req, 1024)
  {
    var data := [Desc(16, 512, true)];
    OneData(data[0]);
    assert PLAIN_READ[1..2] == data;
    BlankRead(disk, head, 1024, PLAIN_READ, data, [Seg(16, 512)]);
    req := Request(head, Read, 0, [Seg(16, 512)], 512, 1023);
  }

  /** The books of a worker that is switched on and takes one request, */
  lemma OneHeld(depth: nat, memSize: nat, s: Slot) returns (on: Slab, held: Slab, t: nat)
    requires depth >= 2 && Sound(s, memSize) && s.generation == 0
    ensures Moved(Empty(depth, memSize), Switch(true), on) && on.generation == 0 && forall u: nat :: !Held(on.slots, u)
    ensures Moved(on, Hold(s), held) && Ok(held) && held.generation == 0 && held.enabled
    ensures t in held.outstanding && Held(held.slots, t) && held.slots[t].value == s
    ensures forall u: nat :: Held(held.slots, u) ==> u == t
  {
    var none := Empty(depth, memSize);
    EmptyOk(depth, memSize);
    on := After(none, Switch(true));
    MoveKeepsOk(none, Switch(true));
    t := on.free[|on.free| - 1];
    held := After(on, Hold(s));
    MoveKeepsOk(on, Hold(s));
    MoveSlots(on, Hold(s), held);
  }

  /** has it back and answers it. */
  lemma OneAnswered(held: Slab, t: nat, s: Slot, len: nat) returns (back: Slab, over: Slab)
    requires Ok(held) && held.enabled && t in held.outstanding && Held(held.slots, t)
    requires held.slots[t].value == s && s.generation == held.generation
    ensures Moved(held, Collect({t}), back) && back.slots == held.slots && back.generation == held.generation
    ensures Moved(back, AnswerSlot(t, len, ANSWER), over) && over.used == back.used + [Used(s.head, len)]
  {
    back := After(held, Collect({t}));
    MoveKeepsOk(held, Collect({t}));
    assert t in back.pending;
    over := After(back, AnswerSlot(t, len, ANSWER));
  }

  lemma PlainReadIsTaken(disk: Disk, base: nat, on: Slab, held: Slab, s: Slot)
    requires disk.dio.None? && 512 <= LenBytes(disk) < Requests.U64 && on.generation == 0
    requires s == Slot(0, 0, Read, 1023, [Seg(16, 512)], [Seg(16, 512)], None, 0, 0, 512, 512, false)
    requires Moved(on, Hold(s), held)
    ensures WorkerDid(disk, base, Point(on, Zeroes(1024)), Taken(Offer(0, PLAIN_READ), []), Point(held, Zeroes(1024)))
  {
    var req := PlainReadIsAccepted(disk, 0);
    assert Prepare(disk, base, Zeroes(1024), req, 0, []) == Some(s);
    assert Issued(disk, base, Point(on, Zeroes(1024)), req, [], Point(held, Zeroes(1024)));
  }

  /** A read that goes straight at the guest's pages is served in one piece, and answered. */
  lemma DirectReadIsServed(disk: Disk, base: nat, back: Slab, over: Slab, t: nat, s: Slot, w: World, after: seq<Byte>)
    requires Probed(disk) && Held(back.slots, t) && back.slots[t].value == s && s.generation == back.generation
    requires s.op.Read? && s.bounce.None? && s.done == 0 && s.total == s.ioLen == Total(s.iovs) > 0
    requires s.segments == s.iovs && InBounds(s.iovs, |w.mem|) && s.offset + s.total <= |w.file|
    requires after == Scatter(w.mem, s.iovs, FileRange(w.file, s.offset, s.total))
    requires Moved(back, AnswerSlot(t, s.total + 1, ANSWER), over)
    ensures var done, delivered := Done(t, s.total), Delivery([], after);
      && WorkerDid(disk, base, Point(back, w.mem), Handled(done, delivered, []),
                   Point(over, WithStatus(after, s.statusAddr, BLK_S_OK)))
      && KernelFinished(Scene(back, w.mem, w.file), done, delivered, w.file)
  {
    assert HandedBack(s, []) == s;
    assert OnDone(disk, s, after, s.total, []) == Finish(BLK_S_OK, after);
    assert KernelReads(s, w, s.total, s, World(after, w.file));
  }

  /** Some history comes here. */
  ghost predicate Happens(disk: Disk, base: nat, a: Scene)
    requires Probed(disk)
  {
    exists points, files, events ::
      IsHistory(disk, base, points, files, events) && SceneAt(points, files, |events|) == a
  }

  /** And this may happen next. */
  ghost predicate HappensNext(disk: Disk, base: nat, a: Scene, e: Event, b: Scene)
    requires Probed(disk)
  {
    && Happens(disk, base, a) && InFlightApart(a.slab.slots)
    && WorkerDid(disk, base, PointOf(a), e, PointOf(b)) && OthersDid(a, e, b)
  }

  lemma HappensFirst(disk: Disk, base: nat, depth: nat, mem: seq<Byte>, file: seq<Byte>)
    requires Probed(disk) && depth >= 2
    ensures Happens(disk, base, Scene(Empty(depth, |mem|), mem, file))
  {
    var points, files, events: seq<Event> := [Point(Empty(depth, |mem|), mem)], [file], [];
    assert IsHistory(disk, base, points, files, events);
    assert SceneAt(points, files, |events|) == Scene(Empty(depth, |mem|), mem, file);
  }

  lemma HistoryGrows(disk: Disk, base: nat, points: seq<Point>, files: seq<seq<Byte>>, events: seq<Event>, e: Event,
                     b: Scene)
    requires Probed(disk) && IsHistory(disk, base, points, files, events)
    requires InFlightApart(points[|events|].slab.slots) && OthersDid(SceneAt(points, files, |events|), e, b)
    requires WorkerDid(disk, base, points[|events|], e, PointOf(b))
    ensures IsHistory(disk, base, points + [PointOf(b)], files + [b.file], events + [e])
  {
    var p, f, es, n := points + [PointOf(b)], files + [b.file], events + [e], |events|;
    TraceGrows(disk, base, points, events, e, PointOf(b));
    forall i | 0 <= i < |es|
      ensures OthersDid(SceneAt(p, f, i), es[i], SceneAt(p, f, i + 1)) && InFlightApart(p[i].slab.slots)
    {
      assert SceneAt(p, f, i) == SceneAt(points, files, i);
      if i < n {
        assert SceneAt(p, f, i + 1) == SceneAt(points, files, i + 1) && es[i] == events[i];
      } else {
        assert SceneAt(p, f, i + 1) == b && es[i] == e;
      }
    }
  }

  lemma HappensOn(disk: Disk, base: nat, a: Scene, e: Event, b: Scene)
    requires Probed(disk) && HappensNext(disk, base, a, e, b)
    ensures Happens(disk, base, b)
  {
    var points, files, events :|
      IsHistory(disk, base, points, files, events) && SceneAt(points, files, |events|) == a;
    HistoryGrows(disk, base, points, files, events, e, b);
    var p, f, es := points + [PointOf(b)], files + [b.file], events + [e];
    assert SceneAt(p, f, |es|) == b;
  }

  /** A worker with at most one request is in nobody's way. */
  lemma AloneIsApart(slots: seq<Option<Slot>>, t: nat)
    requires forall u: nat :: Held(slots, u) ==> u == t
    ensures InFlightApart(slots)
  {
  }

  lemma HappensQuietly(disk: Disk, base: nat, a: Scene, e: Event, b: Scene, t: nat)
    requires Probed(disk) && Happens(disk, base, a) && (e.Control? || e.Reaped?)
    requires WorkerDid(disk, base, PointOf(a), e, PointOf(b)) && b.file == a.file
    requires forall u: nat :: Held(a.slab.slots, u) ==> u == t
    ensures Happens(disk, base, b)
  {
    AloneIsApart(a.slab.slots, t);
    HappensOn(disk, base, a, e, b);
  }

  lemma SwitchHappens(disk: Disk, base: nat, depth: nat, mem: seq<Byte>, file: seq<Byte>, on: Slab)
    requires Probed(disk) && depth >= 2 && Moved(Empty(depth, |mem|), Switch(true), on)
    ensures Happens(disk, base, Scene(on, mem, file))
  {
    HappensFirst(disk, base, depth, mem, file);
    HappensQuietly(disk, base, Scene(Empty(depth, |mem|), mem, file), Control(Switch(true)), Scene(on, mem, file), 0);
  }

  lemma TakeHappens(disk: Disk, base: nat, on: Slab, held: Slab, mem: seq<Byte>, file: seq<Byte>, offer: Offer)
    requires Probed(disk) && Happens(disk, base, Scene(on, mem, file)) && forall u: nat :: !Held(on.slots, u)
    requires WorkerDid(disk, base, Point(on, mem), Taken(offer, []), Point(held, mem))
    ensures Happens(disk, base, Scene(held, mem, file))
  {
    AloneIsApart(on.slots, 0);
    HappensOn(disk, base, Scene(on, mem, file), Taken(offer, []), Scene(held, mem, file));
  }

  lemma ReapHappens(disk: Disk, base: nat, held: Slab, back: Slab, t: nat, mem: seq<Byte>, file: seq<Byte>)
    requires Probed(disk) && Happens(disk, base, Scene(held, mem, file)) && Moved(held, Collect({t}), back)
    requires forall u: nat :: Held(held.slots, u) ==> u == t
    ensures Happens(disk, base, Scene(back, mem, file))
  {
    HappensQuietly(disk, base, Scene(held, mem, file), Reaped({t}), Scene(back, mem, file), t);
  }

  lemma ServeHappens(disk: Disk, base: nat, a: Scene, e: Event, b: Scene, t: nat)
    requires Probed(disk) && Happens(disk, base, a) && e.Handled?
    requires WorkerDid(disk, base, PointOf(a), e, PointOf(b)) && KernelFinished(a, e.d, e.delivered, b.file)
    requires forall u: nat :: Held(a.slab.slots, u) ==> u == t
    ensures HappensNext(disk, base, a, e, b)
  {
    AloneIsApart(a.slab.slots, t);
  }

  lemma APlainReadIsHeld(disk: Disk, base: nat, depth: nat, file: seq<Byte>, s: Slot) returns (held: Slab, t: nat)
    requires disk.dio.None? && 512 <= LenBytes(disk) < Requests.U64 && depth >= 2
    requires s == Slot(0, 0, Read, 1023, [Seg(16, 512)], [Seg(16, 512)], None, 0, 0, 512, 512, false)
    requires Sound(s, 1024)
    ensures Happens(disk, base, Scene(held, Zeroes(1024), file))
    ensures Ok(held) && held.enabled && held.generation == 0 && t in held.outstanding
    ensures Held(held.slots, t) && held.slots[t].value == s && forall u: nat :: Held(held.slots, u) ==> u == t
  {
    var on;
    on, held, t := OneHeld(depth, 1024, s);
    SwitchHappens(disk, base, depth, Zeroes(1024), file, on);
    PlainReadIsTaken(disk, base, on, held, s);
    TakeHappens(disk, base, on, held, Zeroes(1024), file, Offer(0, PLAIN_READ));
  }

  /** What is said of published reads is said of something: a fresh worker that is offered a read of the
      first sector of any file, in blank memory, publishes it. */
  lemma AReadIsPublished(disk: Disk, base: nat, depth: nat, file: seq<Byte>)
    returns (a: Scene, e: Event, b: Scene, s: Slot)
    requires disk.dio.None? && 512 <= LenBytes(disk) < Requests.U64 && 512 <= |file| && depth >= 2
    ensures HappensNext(disk, base, a, e, b) && s.op.Read? && s.total == 512 && Answered(a, e, b, s, 513)
  {
    var mem, segs := Zeroes(1024), [Seg(16, 512)];
    assert Total(segs) == 512 by { assert segs[1..] == []; }
    s := Slot(0, 0, Read, 1023, segs, segs, None, 0, 0, 512, 512, false);
    var held, t := APlainReadIsHeld(disk, base, depth, file, s);
    var back, over := OneAnswered(held, t, s, 513);
    ReapHappens(disk, base, held, back, t, mem, file);
    var after := Scatter(mem, segs, FileRange(file, 0, 512));
    DirectReadIsServed(disk, base, back, over, t, s, World(mem, file), after);
    a, b := Scene(back, mem, file), Scene(over, WithStatus(after, 1023, BLK_S_OK), file);
    e := Handled(Done(t, 512), Delivery([], after), []);
    ServeHappens(disk, base, a, e, b, t);
  }
}
