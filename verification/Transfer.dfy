/** One virtio-blk request in flight: how a worker prepares it, what it does with each
    completion, and what the guest's pages and the backing file hold when it is over.

    The kernel may move any prefix of what was asked, interrupt, refuse the shape of a
    direct transfer, or hit end of file; a failed attempt may leave anything in the part it
    was asked to move. Other requests and the guest may change everything outside the
    request's own segments and file range between any two steps. */
module Transfer {
  import opened Segments
  import opened Wrappers
  import opened Disk

  const BLK_S_OK: nat := 0
  const BLK_S_IOERR: nat := 1
  const BLK_S_UNSUPP: nat := 2

  const EINTR: nat := 4
  const EAGAIN: nat := 11
  const EINVAL: nat := 22
  const EOPNOTSUPP: nat := 95

  datatype Op =
    | Read
    | Write
    | Flush
    | GetId
    | Discard(sector: nat, sectors: nat)
    | WriteZeroes(sector: nat, sectors: nat, unmap: bool)
  {
    predicate Moves() {
      Read? || Write?
    }
  }

  datatype Request = Request(
    head: nat, op: Op, offset: nat, segments: seq<Seg>, total: nat, statusAddr: nat)

  /** An aligned staging buffer; the request's own data starts at `skip`. */
  datatype Bounce = Bounce(buf: seq<Byte>, skip: nat)

  /** A request in flight. `iovs` address guest memory, or the staging buffer when there is one. */
  datatype Slot = Slot(
    generation: nat, head: nat, op: Op, statusAddr: nat, segments: seq<Seg>, iovs: seq<Seg>,
    bounce: Option<Bounce>, offset: nat, done: nat, total: nat, ioLen: nat, bounced: bool)

  // ---- the worker's side ----

  /** A request `parse` accepted: its segments lie in guest memory. */
  predicate Parsed(req: Request, memSize: nat) {
    InBounds(req.segments, memSize) && req.total == Total(req.segments)
  }

  predicate Sound(s: Slot, memSize: nat) {
    && InBounds(s.segments, memSize) && s.total == Total(s.segments)
    && (s.bounce.Some? ==> s.bounce.value.skip + s.total <= |s.bounce.value.buf|)
  }

  /** Uninitialised memory of a given size. */
  function Uninit(junk: seq<Byte>, size: nat): seq<Byte> {
    seq(size, i requires 0 <= i < size => if i < |junk| then junk[i] else 0)
  }

  /** `stage`: rebuild a transfer around an aligned window, or refuse a write that would need
      read-modify-write. The allocation is never smaller than one byte. */
  function Stage(d: Disk, mem: seq<Byte>, s: Slot, junk: seq<Byte>): (r: Option<Slot>)
    requires Probed(d) && Sound(s, |mem|)
    ensures r.Some? ==> Sound(r.value, |mem|)
  {
    var shape := BounceShape(d, s.offset, s.total);
    if (shape.head != 0 || shape.ioLen != s.total) && s.op.Write? then None
    else
      WindowHoldsRequest(d, s.offset, s.total);
      var size := if shape.ioLen == 0 then 1 else shape.ioLen;
      var raw := Uninit(junk, size);
      var buf := if s.op.Write? then WriteAt(raw, shape.head, Gather(mem, s.segments)) else raw;
      Some(s.(offset := s.offset - shape.head, ioLen := shape.ioLen, iovs := [Seg(0, size)],
              bounce := Some(Bounce(buf, shape.head)), bounced := true))
  }

  /** `prepare`: straight at the guest's pages where alignment allows, staged otherwise;
      `None` is an I/O error reported to the guest. */
  function Prepare(
    d: Disk, hostBase: nat, mem: seq<Byte>, req: Request, generation: nat, junk: seq<Byte>): (r: Option<Slot>)
    requires Probed(d) && Parsed(req, |mem|)
    ensures r.Some? ==> Sound(r.value, |mem|)
  {
    var s := Slot(generation, req.head, req.op, req.statusAddr, req.segments, [], None,
                  req.offset, 0, req.total, req.total, false);
    if !req.op.Moves() then Some(s)
    else if DirectOk(d, hostBase, req.offset, req.segments) then Some(s.(iovs := req.segments))
    else Stage(d, mem, s, junk)
  }

  /** Zeroes over everything the segments cover. */
  function Zeroed(mem: seq<Byte>, segs: seq<Seg>): seq<Byte> {
    seq(|mem|, a requires 0 <= a < |mem| => if Covers(segs, a) then 0 else mem[a])
  }

  /** A staged read copied back into the guest's pages. */
  function CopiedOut(mem: seq<Byte>, s: Slot): seq<Byte>
    requires Sound(s, |mem|) && s.bounce.Some?
  {
    var b := s.bounce.value;
    Scatter(mem, s.segments, b.buf[b.skip..b.skip + s.total])
  }

  function ZeroFrom(b: Bounce, at: nat): Bounce {
    b.(buf := seq(|b.buf|, i requires 0 <= i < |b.buf| => if i < at then b.buf[i] else 0))
  }

  /** The status byte, if it has a place in guest memory. */
  function WithStatus(mem: seq<Byte>, addr: nat, status: nat): (m: seq<Byte>)
    ensures |m| == |mem|
  {
    if addr < |mem| && status < 256 then mem[addr := status] else mem
  }

  datatype Outcome = Finish(status: nat, mem: seq<Byte>) | Again(slot: Slot)

  /** `complete`, up to the slab and the rings: what one completion makes of a request. */
  function OnDone(d: Disk, s: Slot, mem: seq<Byte>, result: int, junk: seq<Byte>): Outcome
    requires Probed(d) && Sound(s, |mem|)
  {
    if result < 0 then
      var err := -result;
      if err == EINTR || err == EAGAIN then Again(s)
      else if err == EINVAL && !s.bounced && s.done == 0 && s.op.Moves() then
        (match Stage(d, mem, s, junk)
         case None => Finish(BLK_S_IOERR, mem)
         case Some(staged) => Again(staged))
      else if err == EOPNOTSUPP && (s.op.Discard? || s.op.WriteZeroes?) then Finish(BLK_S_UNSUPP, mem)
      else Finish(BLK_S_IOERR, mem)
    else if !s.op.Moves() then Finish(BLK_S_OK, mem)
    else
      var t := s.(done := s.done + result, offset := s.offset + result);
      if t.done < t.ioLen then
        if result == 0 then
          if t.op.Read? then
            if t.bounce.Some? then
              Finish(BLK_S_OK, CopiedOut(mem, t.(bounce := Some(ZeroFrom(t.bounce.value, t.done)))))
            else Finish(BLK_S_OK, Zeroed(mem, DropBytes(t.segments, t.done)))
          else Finish(BLK_S_IOERR, mem)
        else Again(t.(iovs := DropBytes(t.iovs, result)))
      else if t.op.Read? && t.bounce.Some? then Finish(BLK_S_OK, CopiedOut(mem, t))
      else Finish(BLK_S_OK, mem)
  }

  // ---- the kernel's side ----

  datatype World = World(mem: seq<Byte>, file: seq<Byte>)

  /** The file as a disk of zeroes that ends nowhere. */
  function FileByte(file: seq<Byte>, i: nat): Byte {
    if i < |file| then file[i] else 0
  }

  function FileRange(file: seq<Byte>, offset: nat, n: nat): seq<Byte> {
    seq<Byte>(n, k requires 0 <= k < n => FileByte(file, offset + k))
  }

  function FileWrite(file: seq<Byte>, offset: nat, data: seq<Byte>): seq<Byte> {
    if data == [] then file
    else
      var size := if offset + |data| > |file| then offset + |data| else |file|;
      seq(size, i requires 0 <= i < size =>
        if offset <= i < offset + |data| then data[i - offset] else FileByte(file, i))
  }

  /** What the transfer's `iovs` point into. */
  function Buffer(s: Slot, w: World): seq<Byte> {
    if s.bounce.Some? then s.bounce.value.buf else w.mem
  }

  ghost predicate SameOutside(a: seq<Byte>, b: seq<Byte>, segs: seq<Seg>) {
    |a| == |b| && forall i :: 0 <= i < |a| && !Covers(segs, i) ==> a[i] == b[i]
  }

  /** The slot and world after the kernel put `buf` where the iovs point. */
  ghost predicate Delivered(s: Slot, w: World, buf: seq<Byte>, s': Slot, w': World) {
    if s.bounce.Some? then
      s' == s.(bounce := Some(s.bounce.value.(buf := buf))) && w' == w
    else
      s' == s && w' == w.(mem := buf)
  }

  /** `preadv`: moves a prefix of what was asked and of what the file holds; zero bytes of a
      non-empty request mean end of file; a failure may have scribbled on the buffer. */
  ghost predicate KernelReads(s: Slot, w: World, result: int, s': Slot, w': World) {
    && InBounds(s.iovs, |Buffer(s, w)|)
    && if result >= 0 then
         && result <= Total(s.iovs)
         && (result > 0 ==> s.offset + result <= |w.file|)
         && (result == 0 ==> Total(s.iovs) == 0 || s.offset >= |w.file|)
         && Delivered(s, w, Scatter(Buffer(s, w), s.iovs, FileRange(w.file, s.offset, result)), s', w')
       else
         exists buf :: SameOutside(buf, Buffer(s, w), s.iovs) && Delivered(s, w, buf, s', w')
  }

  ghost predicate SameFileIn(a: seq<Byte>, b: seq<Byte>, lo: nat, hi: nat) {
    forall i: nat :: lo <= i < hi ==> FileByte(a, i) == FileByte(b, i)
  }

  ghost predicate SameFileOutside(a: seq<Byte>, b: seq<Byte>, lo: nat, hi: nat) {
    forall i: nat :: !(lo <= i < hi) ==> FileByte(a, i) == FileByte(b, i)
  }

  /** `pwritev`: puts a prefix of what was asked into the file; a failure may have left
      anything in the range it was asked to write. */
  ghost predicate KernelWrites(s: Slot, w: World, result: int, s': Slot, w': World) {
    && InBounds(s.iovs, |Buffer(s, w)|)
    && s' == s && w'.mem == w.mem
    && if result >= 0 then
         && result <= Total(s.iovs)
         && w'.file == FileWrite(w.file, s.offset, Gather(Buffer(s, w), s.iovs)[..result])
       else SameFileOutside(w'.file, w.file, s.offset, s.offset + Total(s.iovs))
  }

  // ---- runs of one request ----

  datatype Phase = InFlight(slot: Slot, w: World) | Finished(status: nat, w: World)

  datatype Label =
    | Interfere                                                // anything but this request
    | Completion(result: int, s: Slot, w: World, junk: seq<Byte>)  // the kernel, then `complete`

  /** Nobody else touches the request's pages or its part of the file. */
  ghost predicate Respects(req: Request, w: World, w': World) {
    && |w'.mem| == |w.mem|
    && (forall a :: 0 <= a < |w.mem| && Covers(req.segments, a) ==> w'.mem[a] == w.mem[a])
    && SameFileIn(w'.file, w.file, req.offset, req.offset + req.total)
  }

  ghost predicate Step(d: Disk, req: Request, p: Phase, l: Label, p': Phase)
    requires Probed(d)
  {
    && p.InFlight?
    && match l
       case Interfere => p'.InFlight? && p'.slot == p.slot && Respects(req, p.w, p'.w)
       case Completion(result, s, w, junk) =>
         && (if p.slot.op.Read? then KernelReads(p.slot, p.w, result, s, w)
             else KernelWrites(p.slot, p.w, result, s, w))
         && Sound(s, |w.mem|)
         && Leads(d, s, w, result, junk, p')
  }

  /** `complete`: what is left goes back to the engine, or the status byte is written and it is over. */
  ghost predicate Leads(d: Disk, s: Slot, w: World, result: int, junk: seq<Byte>, p: Phase)
    requires Probed(d) && Sound(s, |w.mem|)
  {
    match OnDone(d, s, w.mem, result, junk)
    case Finish(status, mem) => p == Finished(status, w.(mem := WithStatus(mem, s.statusAddr, status)))
    case Again(t) => p == InFlight(t, w)
  }

  /** A request from preparation on, through any interleaving. */
  ghost predicate IsRun(d: Disk, hostBase: nat, req: Request, junk: seq<Byte>, phases: seq<Phase>, labels: seq<Label>)
    requires Probed(d)
  {
    && |phases| == |labels| + 1
    && phases[0].InFlight?
    && Parsed(req, |phases[0].w.mem|)
    && Prepare(d, hostBase, phases[0].w.mem, req, phases[0].slot.generation, junk) == Some(phases[0].slot)
    && forall i :: 0 <= i < |labels| ==> Step(d, req, phases[i], labels[i], phases[i + 1])
  }

  // ---- reads ----

  predicate Carries(req: Request, s: Slot, memSize: nat) {
    && Sound(s, memSize) && s.head == req.head && s.statusAddr == req.statusAddr
    && s.segments == req.segments && s.total == req.total && s.op == req.op
  }

  /** How far a transfer has come, through the guest's pages or through the window. */
  predicate Positioned(req: Request, s: Slot) {
    (s.bounced <==> s.bounce.Some?) &&
    match s.bounce
    case None =>
      && s.ioLen == s.total && s.done <= s.total && s.offset == req.offset + s.done
      && s.iovs == DropBytes(s.segments, s.done)
    case Some(b) =>
      && b.skip <= req.offset && s.offset + b.skip == req.offset + s.done
      && b.skip + s.total <= s.ioLen <= |b.buf| && s.done <= |b.buf|
      && s.iovs == DropBytes([Seg(0, |b.buf|)], s.done)
  }

  /** Where the request's own data starts in the buffer. */
  function Skip(s: Slot): nat {
    if s.bounce.Some? then s.bounce.value.skip else 0
  }

  function Min(a: nat, b: nat): nat {
    if a <= b then a else b
  }

  /** Bytes `lo..hi`, at their places in the buffer, are the file's from `start` on. Where several have one
      place it is the last of them that counts. */
  ghost predicate Holds(at: seq<nat>, buf: seq<Byte>, file: seq<Byte>, start: nat, lo: nat, hi: nat) {
    forall k: nat :: lo <= k < hi && LastIn(at, |at|, k) ==>
      at[k] < |buf| && buf[at[k]] == FileByte(file, start + k)
  }

  /** Where the bytes of a transfer go: their places in a buffer, and which of them are the request's. */
  datatype Window = Window(at: seq<nat>, buf: seq<Byte>, start: nat, lo: nat, hi: nat)

  /** The window of a transfer in flight: the guest's pages, or the staging buffer. */
  ghost function Seen(req: Request, s: Slot, w: World): Window
    requires Skip(s) <= req.offset
  {
    Window(Addresses(WholeList(s)), Buffer(s, w), req.offset - Skip(s), Skip(s), Skip(s) + s.total)
  }

  /** The request's part of the first `upto` positions is there. */
  ghost predicate Filled(v: Window, file: seq<Byte>, upto: nat) {
    Holds(v.at, v.buf, file, v.start, v.lo, Min(upto, v.hi))
  }

  /** Bytes of the buffer the request has received, in terms of the list it runs over. */
  ghost predicate Received(req: Request, s: Slot, w: World, upto: nat)
    requires Skip(s) <= req.offset
  {
    Filled(Seen(req, s, w), w.file, upto)
  }

  /** What a read that ended OK leaves: the file's bytes in the guest's pages, and the status byte, which
      is written last. */
  ghost predicate Landed(req: Request, w: World) {
    var at := Addresses(req.segments);
    && (forall k: nat :: LastIn(at, |at|, k) && at[k] != req.statusAddr ==>
          at[k] < |w.mem| && w.mem[at[k]] == FileByte(w.file, req.offset + k))
    && (req.statusAddr < |w.mem| ==> w.mem[req.statusAddr] == BLK_S_OK)
  }

  ghost predicate ReadInv(req: Request, p: Phase) {
    match p
    case InFlight(s, w) => Carries(req, s, |w.mem|) && Positioned(req, s) && Received(req, s, w, s.done)
    case Finished(status, w) => Parsed(req, |w.mem|) && (status == BLK_S_OK ==> Landed(req, w))
  }

  // -- one list, one buffer --

  lemma GatherWhole(buf: seq<Byte>)
    ensures InBounds([Seg(0, |buf|)], |buf|) && Total([Seg(0, |buf|)]) == |buf|
    ensures Gather(buf, [Seg(0, |buf|)]) == buf
  {
    var one := [Seg(0, |buf|)];
    assert one[1..] == [];
    GatherStep(buf, one, buf[0..|buf|], []);
  }

  /** In a list of one segment from 0 on each byte has its own place. */
  lemma OneList(n: nat, k: nat)
    requires k < n
    ensures |Addresses([Seg(0, n)])| == n && Addresses([Seg(0, n)])[k] == k && LastIn(Addresses([Seg(0, n)]), n, k)
  {
    var one := [Seg(0, n)];
    assert one[1..] == [] && Total(one) == n;
    forall j: nat | j < n ensures Addresses(one)[j] == j {
      assert AddrAt(one, j) == j;
    }
  }

  /** The list the transfer runs over, before any of it was moved. */
  function WholeList(s: Slot): seq<Seg> {
    if s.bounce.Some? then [Seg(0, |s.bounce.value.buf|)] else s.segments
  }

  /** Whatever the buffer, the remaining list is the whole one less what was moved. */
  lemma ListShape(req: Request, s: Slot, w: World)
    requires Carries(req, s, |w.mem|) && Positioned(req, s)
    ensures var all, buf := WholeList(s), Buffer(s, w);
      && InBounds(all, |buf|) && s.iovs == DropBytes(all, s.done) && s.done <= Total(all)
      && InBounds(s.iovs, |buf|) && Total(s.iovs) == Total(all) - s.done
  {
    if s.bounce.Some? {
      GatherWhole(s.bounce.value.buf);
    }
    DropKeepsShape(WholeList(s), s.done, |Buffer(s, w)|);
  }

  // -- what moving, failing and zeroing leave in a list --

  /** The next bytes arrive. */
  lemma MoreHeld(v: Window, file: seq<Byte>, done: nat, from: nat, n: nat, data: seq<Byte>, after: seq<Byte>)
    requires Filled(v, file, done) && from == v.start + done && PutAt(v.at, done, data, v.buf, after)
    requires data == FileRange(file, from, n)
    ensures Filled(v.(buf := after), file, done + n)
  {
    forall k: nat | v.lo <= k < Min(done + n, v.hi) && LastIn(v.at, |v.at|, k)
      ensures v.at[k] < |after| && after[v.at[k]] == FileByte(file, v.start + k)
    {
      if k < done {
        PutLeaves(v.at, done, data, v.buf, after, k);
      } else {
        PutLands(v.at, done, data, v.buf, after, k);
        assert data[k - done] == FileByte(file, v.start + k);
      }
    }
  }

  /** A failed attempt at the rest spoils nothing that is in place. */
  lemma StillHeld(v: Window, all: seq<Seg>, file: seq<Byte>, done: nat, after: seq<Byte>)
    requires InBounds(all, |v.buf|) && done <= Total(all) && Filled(v, file, done) && v.at == Addresses(all)
    requires SameOutside(after, v.buf, DropBytes(all, done))
    ensures Filled(v.(buf := after), file, done)
  {
    forall k: nat | v.lo <= k < Min(done, v.hi) && LastIn(v.at, |v.at|, k)
      ensures v.at[k] < |after| && after[v.at[k]] == FileByte(file, v.start + k)
    {
      RestSpares(all, done, |v.buf|, k);
    }
  }

  /** Past the end of the file, zeroes are what belongs in the rest. */
  lemma ZeroesHeld(all: seq<Seg>, at: seq<nat>, buf: seq<Byte>, file: seq<Byte>, start: nat, done: nat)
    requires InBounds(all, |buf|) && done <= Total(all) && |file| <= start + done && at == Addresses(all)
    requires Holds(at, buf, file, start, 0, done)
    ensures Holds(at, Zeroed(buf, DropBytes(all, done)), file, start, 0, |at|)
  {
    var after := Zeroed(buf, DropBytes(all, done));
    forall k: nat | LastIn(at, |at|, k) ensures at[k] < |after| && after[at[k]] == FileByte(file, start + k) {
      if k < done {
        RestSpares(all, done, |buf|, k);
      } else {
        AddrInMemory(all, k, |buf|);
        RestCovers(all, done, k);
      }
    }
  }

  /** In a list of one segment everything counts. */
  lemma OneHolds(buf: seq<Byte>, file: seq<Byte>, start: nat, lo: nat, hi: nat)
    requires hi <= |buf| && Holds(Addresses([Seg(0, |buf|)]), buf, file, start, lo, hi)
    ensures forall k: nat :: lo <= k < hi ==> buf[k] == FileByte(file, start + k)
  {
    forall k: nat | lo <= k < hi ensures buf[k] == FileByte(file, start + k) {
      OneList(|buf|, k);
    }
  }

  /** Bytes copied over a list in order. */
  lemma CopyHeld(mem: seq<Byte>, segs: seq<Seg>, data: seq<Byte>, file: seq<Byte>, start: nat)
    requires InBounds(segs, |mem|) && data == FileRange(file, start, Total(segs))
    ensures Holds(Addresses(segs), Scatter(mem, segs, data), file, start, 0, Total(segs))
  {
    var at := Addresses(segs);
    forall k: nat | LastIn(at, |at|, k)
      ensures at[k] < |mem| && Scatter(mem, segs, data)[at[k]] == FileByte(file, start + k)
    {
      LastIsLast(segs, |at|, k);
      ScatterLast(mem, segs, data, k);
    }
  }

  // -- the kernel's part of a read --

  lemma KernelReadKeepsShape(req: Request, s: Slot, w: World, result: int, s1: Slot, w1: World)
    requires Carries(req, s, |w.mem|) && Positioned(req, s)
    requires KernelReads(s, w, result, s1, w1)
    ensures |w1.mem| == |w.mem| && Carries(req, s1, |w1.mem|) && Positioned(req, s1)
    ensures w1.file == w.file && s1.offset == s.offset && s1.done == s.done && WholeList(s1) == WholeList(s)
  {}

  lemma WindowShape(req: Request, s: Slot, w: World, v: Window, all: seq<Seg>)
    requires Carries(req, s, |w.mem|) && Positioned(req, s) && v == Seen(req, s, w) && all == WholeList(s)
    ensures v.at == Addresses(all) && InBounds(all, |v.buf|) && s.done <= Total(all) && s.offset == v.start + s.done
    ensures s.iovs == DropBytes(all, s.done) && Total(s.iovs) == Total(all) - s.done
  {
    ListShape(req, s, w);
  }

  /** An attempt changes the contents of the window and nothing else. */
  lemma WindowStays(req: Request, s: Slot, w: World, result: int, s1: Slot, w1: World, v: Window)
    requires Skip(s) <= req.offset && KernelReads(s, w, result, s1, w1) && v == Seen(req, s, w)
    ensures w1.file == w.file && Skip(s1) <= req.offset && |Buffer(s1, w1)| == |v.buf|
    ensures Seen(req, s1, w1) == v.(buf := Buffer(s1, w1))
  {
  }

  lemma ReadDelivers(req: Request, s: Slot, w: World, result: nat, s1: Slot, w1: World)
    requires Carries(req, s, |w.mem|) && Positioned(req, s) && Received(req, s, w, s.done)
    requires KernelReads(s, w, result, s1, w1)
    ensures Skip(s1) <= req.offset && Received(req, s1, w1, s.done + result)
  {
    var v, all, data := Seen(req, s, w), WholeList(s), FileRange(w.file, s.offset, result);
    WindowShape(req, s, w, v, all);
    WindowStays(req, s, w, result, s1, w1, v);
    ScatterResumes(v.buf, all, s.done, s.iovs, data, Buffer(s1, w1));
    MoreHeld(v, w.file, s.done, s.offset, result, data, Buffer(s1, w1));
  }

  lemma FailedReadKeeps(req: Request, s: Slot, w: World, result: int, s1: Slot, w1: World)
    requires result < 0
    requires Carries(req, s, |w.mem|) && Positioned(req, s) && Received(req, s, w, s.done)
    requires KernelReads(s, w, result, s1, w1)
    ensures Skip(s1) <= req.offset && Received(req, s1, w1, s.done)
  {
    var v := Seen(req, s, w);
    WindowShape(req, s, w, v, WholeList(s));
    WindowStays(req, s, w, result, s1, w1, v);
    StillHeld(v, WholeList(s), w.file, s.done, Buffer(s1, w1));
  }

  // -- the worker's part of a read --

  /** A full window copied back is what the guest reads. */
  lemma WindowReads(s: Slot, mem: seq<Byte>, file: seq<Byte>, start: nat)
    requires Sound(s, |mem|) && s.bounce.Some?
    requires var b := s.bounce.value;
      forall k: nat :: b.skip <= k < b.skip + s.total ==> b.buf[k] == FileByte(file, start + k)
    ensures Holds(Addresses(s.segments), CopiedOut(mem, s), file, start + s.bounce.value.skip, 0, s.total)
  {
    var b := s.bounce.value;
    var data, want := b.buf[b.skip..b.skip + s.total], FileRange(file, start + b.skip, s.total);
    forall k: nat | k < |data| ensures data[k] == want[k] {
      assert data[k] == b.buf[b.skip + k];
    }
    SeqExt(data, want);
    CopyHeld(mem, s.segments, data, file, start + b.skip);
  }

  lemma StagedReadStarts(d: Disk, req: Request, mem: seq<Byte>, s: Slot, junk: seq<Byte>)
    requires Probed(d) && Carries(req, s, |mem|) && req.op.Read?
    requires s.offset == req.offset && s.done == 0
    ensures var r := Stage(d, mem, s, junk);
      r.Some? && Carries(req, r.value, |mem|) && Positioned(req, r.value) && r.value.done == 0
  {
    WindowHoldsRequest(d, s.offset, s.total);
  }

  /** What a completion of a read may leave behind. */
  ghost predicate ReadOutcome(req: Request, w: World, o: Outcome) {
    match o
    case Again(t) => Carries(req, t, |w.mem|) && Positioned(req, t) && Received(req, t, w, t.done)
    case Finish(status, mem) =>
      && |mem| == |w.mem| && Parsed(req, |mem|)
      && (status == BLK_S_OK ==> Holds(Addresses(req.segments), mem, w.file, req.offset, 0, req.total))
  }

  lemma ReadFails(d: Disk, req: Request, s: Slot, w: World, result: int, junk: seq<Byte>)
    requires Probed(d) && Carries(req, s, |w.mem|) && Positioned(req, s) && req.op.Read?
    requires result < 0 && Received(req, s, w, s.done)
    ensures ReadOutcome(req, w, OnDone(d, s, w.mem, result, junk))
  {
    if -result == EINVAL && !s.bounced && s.done == 0 {
      StagedReadStarts(d, req, w.mem, s, junk);
    }
  }

  lemma ReadContinues(d: Disk, req: Request, s: Slot, w: World, result: int, junk: seq<Byte>)
    requires Probed(d) && Carries(req, s, |w.mem|) && Positioned(req, s) && req.op.Read?
    requires result > 0 && s.done + result < s.ioLen && Received(req, s, w, s.done + result)
    ensures ReadOutcome(req, w, OnDone(d, s, w.mem, result, junk))
  {
    var t := s.(done := s.done + result, offset := s.offset + result, iovs := DropBytes(s.iovs, result));
    assert OnDone(d, s, w.mem, result, junk) == Again(t);
    StillPositioned(req, s, result, t);
    assert Seen(req, t, w) == Seen(req, s, w);
  }

  lemma StillPositioned(req: Request, s: Slot, n: nat, t: Slot)
    requires Positioned(req, s) && s.done + n < s.ioLen
    requires t == s.(done := s.done + n, offset := s.offset + n, iovs := DropBytes(s.iovs, n))
    ensures Positioned(req, t)
  {
    DropDrop(WholeList(s), s.done, n);
  }

  lemma ReadHitsEnd(d: Disk, req: Request, s: Slot, w: World, junk: seq<Byte>)
    requires Probed(d) && Carries(req, s, |w.mem|) && Positioned(req, s) && req.op.Read?
    requires s.done < s.ioLen && s.offset >= |w.file| && Received(req, s, w, s.done)
    ensures ReadOutcome(req, w, OnDone(d, s, w.mem, 0, junk))
  {
    if s.bounce.Some? {
      WindowEnds(req, s, w);
      var t := s.(bounce := Some(ZeroFrom(s.bounce.value, s.done)));
      assert OnDone(d, s, w.mem, 0, junk) == Finish(BLK_S_OK, CopiedOut(w.mem, t));
    } else {
      ZeroesHeld(s.segments, Addresses(s.segments), w.mem, w.file, req.offset, s.done);
    }
  }

  /** End of file, through the window: zeroing its tail is what the guest ends up seeing. */
  lemma WindowEnds(req: Request, s: Slot, w: World)
    requires Carries(req, s, |w.mem|) && Positioned(req, s) && s.bounce.Some?
    requires s.offset >= |w.file| && Received(req, s, w, s.done)
    ensures var t := s.(bounce := Some(ZeroFrom(s.bounce.value, s.done)));
      Sound(t, |w.mem|) && Holds(Addresses(req.segments), CopiedOut(w.mem, t), w.file, req.offset, 0, req.total)
  {
    var b := s.bounce.value;
    OneHolds(b.buf, w.file, req.offset - b.skip, b.skip, Min(s.done, b.skip + s.total));
    ZeroTail(b, w.file, req.offset - b.skip, b.skip, b.skip + s.total, s.done);
    WindowReads(s.(bounce := Some(ZeroFrom(b, s.done))), w.mem, w.file, req.offset - b.skip);
  }

  lemma ZeroTail(b: Bounce, file: seq<Byte>, start: nat, lo: nat, hi: nat, done: nat)
    requires hi <= |b.buf| && |file| <= start + done
    requires forall k: nat :: lo <= k < Min(done, hi) ==> b.buf[k] == FileByte(file, start + k)
    ensures forall k: nat :: lo <= k < hi ==> ZeroFrom(b, done).buf[k] == FileByte(file, start + k)
  {
  }

  /** The request's whole part of the window is there. */
  lemma WholeFilled(v: Window, file: seq<Byte>, upto: nat)
    requires Filled(v, file, upto) && v.hi <= upto
    ensures Holds(v.at, v.buf, file, v.start, v.lo, v.hi)
  {
  }

  lemma ReadFills(d: Disk, req: Request, s: Slot, w: World, result: int, junk: seq<Byte>)
    requires Probed(d) && Carries(req, s, |w.mem|) && Positioned(req, s) && req.op.Read?
    requires result >= 0 && s.ioLen <= s.done + result <= Total(WholeList(s)) && Received(req, s, w, s.done + result)
    ensures ReadOutcome(req, w, OnDone(d, s, w.mem, result, junk))
  {
    WholeFilled(Seen(req, s, w), w.file, s.done + result);
    FullOutcome(d, s, w.mem, result, junk);
    if s.bounce.Some? {
      FullWindowReads(req, s, w);
    }
  }

  /** A read that has everything ends OK. */
  lemma FullOutcome(d: Disk, s: Slot, mem: seq<Byte>, result: int, junk: seq<Byte>)
    requires Probed(d) && Sound(s, |mem|) && s.op.Read? && result >= 0 && s.done + result >= s.ioLen
    ensures OnDone(d, s, mem, result, junk)
         == Finish(BLK_S_OK, if s.bounce.Some? then CopiedOut(mem, s) else mem)
  {
  }

  lemma FullWindowReads(req: Request, s: Slot, w: World)
    requires Carries(req, s, |w.mem|) && Positioned(req, s) && s.bounce.Some?
    requires var v := Seen(req, s, w); Holds(v.at, v.buf, w.file, v.start, v.lo, v.hi)
    ensures Holds(Addresses(req.segments), CopiedOut(w.mem, s), w.file, req.offset, 0, req.total)
  {
    var b := s.bounce.value;
    OneHolds(b.buf, w.file, req.offset - b.skip, b.skip, b.skip + s.total);
    WindowReads(s, w.mem, w.file, req.offset - b.skip);
  }

  lemma ReadArrives(d: Disk, req: Request, s: Slot, w: World, result: nat, junk: seq<Byte>)
    requires Probed(d) && Carries(req, s, |w.mem|) && Positioned(req, s) && req.op.Read?
    requires s.done + result <= Total(WholeList(s)) && Received(req, s, w, s.done + result)
    requires result == 0 && s.done < s.ioLen ==> s.offset >= |w.file|
    ensures ReadOutcome(req, w, OnDone(d, s, w.mem, result, junk))
  {
    if s.done + result >= s.ioLen {
      ReadFills(d, req, s, w, result, junk);
    } else if result == 0 {
      ReadHitsEnd(d, req, s, w, junk);
    } else {
      ReadContinues(d, req, s, w, result, junk);
    }
  }

  lemma WindowCoversRequest(req: Request, s: Slot, w: World)
    requires Carries(req, s, |w.mem|) && Positioned(req, s) && s.done < s.ioLen
    ensures Total(s.iovs) > 0
  {
    ListShape(req, s, w);
    if s.bounce.Some? {
      GatherWhole(s.bounce.value.buf);
    }
  }

  /** What the worker may rely on when a read comes back with `result` bytes. */
  lemma ReadCameBack(req: Request, s: Slot, w: World, result: nat, s1: Slot, w1: World)
    requires Carries(req, s, |w.mem|) && Positioned(req, s) && KernelReads(s, w, result, s1, w1)
    ensures s1.done + result <= Total(WholeList(s1))
    ensures result == 0 && s1.done < s1.ioLen ==> s1.offset >= |w1.file|
  {
    ListShape(req, s, w);
    if s.done < s.ioLen {
      WindowCoversRequest(req, s, w);
    }
  }

  lemma ReadReturns(d: Disk, req: Request, s: Slot, w: World, result: nat, s1: Slot, w1: World, junk: seq<Byte>)
    requires Probed(d) && Carries(req, s, |w.mem|) && Positioned(req, s) && req.op.Read? && Received(req, s, w, s.done)
    requires KernelReads(s, w, result, s1, w1)
    ensures Carries(req, s1, |w1.mem|) && ReadOutcome(req, w1, OnDone(d, s1, w1.mem, result, junk))
  {
    KernelReadKeepsShape(req, s, w, result, s1, w1);
    ReadDelivers(req, s, w, result, s1, w1);
    ReadCameBack(req, s, w, result, s1, w1);
    ReadArrives(d, req, s1, w1, result, junk);
  }

  lemma ReadComesToNothing(
    d: Disk, req: Request, s: Slot, w: World, result: int, s1: Slot, w1: World, junk: seq<Byte>)
    requires Probed(d) && Carries(req, s, |w.mem|) && Positioned(req, s) && req.op.Read? && Received(req, s, w, s.done)
    requires KernelReads(s, w, result, s1, w1) && result < 0
    ensures Carries(req, s1, |w1.mem|) && ReadOutcome(req, w1, OnDone(d, s1, w1.mem, result, junk))
  {
    KernelReadKeepsShape(req, s, w, result, s1, w1);
    FailedReadKeeps(req, s, w, result, s1, w1);
    ReadFails(d, req, s1, w1, result, junk);
  }

  /** The kernel and `complete` together: a read goes on with everything so far in place, or
      ends, and then an OK leaves the file's bytes in the guest's pages. */
  lemma ReadCompletes(d: Disk, req: Request, s: Slot, w: World, result: int, s1: Slot, w1: World, junk: seq<Byte>)
    requires Probed(d) && Carries(req, s, |w.mem|) && Positioned(req, s) && req.op.Read? && Received(req, s, w, s.done)
    requires KernelReads(s, w, result, s1, w1)
    ensures Carries(req, s1, |w1.mem|) && ReadOutcome(req, w1, OnDone(d, s1, w1.mem, result, junk))
  {
    if result < 0 {
      ReadComesToNothing(d, req, s, w, result, s1, w1, junk);
    } else {
      ReadReturns(d, req, s, w, result, s1, w1, junk);
    }
  }

  lemma ReadStarts(
    d: Disk, hostBase: nat, req: Request, mem: seq<Byte>, file: seq<Byte>, generation: nat, junk: seq<Byte>)
    requires Probed(d) && Parsed(req, |mem|) && req.op.Read?
    ensures var r := Prepare(d, hostBase, mem, req, generation, junk);
      r.Some? && ReadInv(req, InFlight(r.value, World(mem, file)))
  {
    if !DirectOk(d, hostBase, req.offset, req.segments) {
      var s := Slot(generation, req.head, req.op, req.statusAddr, req.segments, [], None,
                    req.offset, 0, req.total, req.total, false);
      StagedReadStarts(d, req, mem, s, junk);
    }
  }

  lemma InterferenceKeepsRead(req: Request, s: Slot, w: World, w': World)
    requires ReadInv(req, InFlight(s, w)) && Respects(req, w, w')
    ensures ReadInv(req, InFlight(s, w'))
  {
    var v := Seen(req, s, w);
    InterferenceSpares(req, s, w, w', v.buf, Buffer(s, w'));
    OthersHold(v, WholeList(s), w.file, w'.file, s.done, Buffer(s, w'));
  }

  lemma InterferenceSpares(req: Request, s: Slot, w: World, w': World, buf: seq<Byte>, buf': seq<Byte>)
    requires Carries(req, s, |w.mem|) && Respects(req, w, w') && buf == Buffer(s, w) && buf' == Buffer(s, w')
    ensures |buf'| == |buf| && forall a :: 0 <= a < |buf| && Covers(WholeList(s), a) ==> buf'[a] == buf[a]
  {
  }

  /** Nobody else touched what the window covers, or the file's bytes that belong there. */
  lemma OthersHold(v: Window, all: seq<Seg>, file: seq<Byte>, file': seq<Byte>, upto: nat, buf': seq<Byte>)
    requires Filled(v, file, upto) && SameFileIn(file', file, v.start + v.lo, v.start + v.hi) && v.at == Addresses(all)
    requires |buf'| == |v.buf| && forall a :: 0 <= a < |v.buf| && Covers(all, a) ==> buf'[a] == v.buf[a]
    ensures Filled(v.(buf := buf'), file', upto)
  {
    forall k: nat | v.lo <= k < Min(upto, v.hi) && LastIn(v.at, |v.at|, k)
      ensures v.at[k] < |buf'| && buf'[v.at[k]] == FileByte(file', v.start + k)
    {
      AddrCovered(all, k);
      assert FileByte(file', v.start + k) == FileByte(file, v.start + k);
    }
  }

  /** The status byte goes in last. */
  lemma StatusLands(req: Request, w: World, mem: seq<Byte>, status: nat)
    requires Parsed(req, |mem|) && status < 256
    requires status == BLK_S_OK ==> Holds(Addresses(req.segments), mem, w.file, req.offset, 0, req.total)
    ensures ReadInv(req, Finished(status, w.(mem := WithStatus(mem, req.statusAddr, status))))
  {
  }

  lemma StatusIsSmall(d: Disk, s: Slot, mem: seq<Byte>, result: int, junk: seq<Byte>)
    requires Probed(d) && Sound(s, |mem|)
    ensures var o := OnDone(d, s, mem, result, junk); o.Finish? ==> o.status < 256
  {
  }

  lemma {:induction false} RunKeepsReadInv(
    d: Disk, hostBase: nat, req: Request, junk: seq<Byte>, phases: seq<Phase>, labels: seq<Label>, i: nat)
    requires Probed(d) && IsRun(d, hostBase, req, junk, phases, labels) && req.op.Read? && i < |phases|
    ensures ReadInv(req, phases[i])
  {
    if i == 0 {
      ReadStarts(d, hostBase, req, phases[0].w.mem, phases[0].w.file, phases[0].slot.generation, junk);
    } else {
      RunKeepsReadInv(d, hostBase, req, junk, phases, labels, i - 1);
      var p, l := phases[i - 1], labels[i - 1];
      assert Step(d, req, p, l, phases[i]);
      match l
      case Interfere => InterferenceKeepsRead(req, p.slot, p.w, phases[i].w);
      case Completion(result, s, w, more) =>
        ReadCompletes(d, req, p.slot, p.w, result, s, w, more);
        ReadFinishes(d, req, s, w, result, more, phases[i]);
    }
  }

  lemma ReadFinishes(d: Disk, req: Request, s: Slot, w: World, result: int, junk: seq<Byte>, p: Phase)
    requires Probed(d) && Carries(req, s, |w.mem|) && ReadOutcome(req, w, OnDone(d, s, w.mem, result, junk))
    requires Leads(d, s, w, result, junk, p)
    ensures ReadInv(req, p)
  {
    StatusIsSmall(d, s, w.mem, result, junk);
    match OnDone(d, s, w.mem, result, junk)
    case Finish(status, mem) => StatusLands(req, w, mem, status);
    case Again(_) =>
  }

  // -- when the guest has its data --

  /** Bytes of the list that share a place ask for the same value, and one that shares the status byte's
      asks for that. */
  ghost predicate Coherent(req: Request, want: seq<Byte>)
    requires |want| == Total(req.segments)
  {
    var at := Addresses(req.segments);
    && (forall j: nat, k: nat :: j < k < |at| && at[j] == at[k] ==> want[j] == want[k])
    && (forall k: nat :: k < |at| && at[k] == req.statusAddr ==> want[k] == BLK_S_OK)
  }

  /** The ordinary request is coherent whatever the file holds: nothing overlaps. */
  lemma ApartIsCoherent(req: Request, want: seq<Byte>)
    requires |want| == Total(req.segments) && Disjoint(req.segments) && !Covers(req.segments, req.statusAddr)
    ensures Coherent(req, want)
  {
    var at := Addresses(req.segments);
    forall j: nat, k: nat | j < k < |at| ensures at[j] != at[k] {
      AddrInjective(req.segments, j, k);
    }
    forall k: nat | k < |at| ensures at[k] != req.statusAddr {
      AddrCovered(req.segments, k);
    }
  }

  lemma LandedAt(req: Request, w: World, at: seq<nat>, want: seq<Byte>, k: nat)
    requires Parsed(req, |w.mem|) && Landed(req, w) && want == FileRange(w.file, req.offset, req.total)
    requires at == Addresses(req.segments) && Coherent(req, want) && k < |at|
    ensures at[k] < |w.mem| && w.mem[at[k]] == want[k]
  {
    AddrInMemory(req.segments, k, |w.mem|);
    if at[k] != req.statusAddr {
      var last := LastOf(at, k);
      assert want[last] == FileByte(w.file, req.offset + last);
      SharedPlace(req, at, want, k, last);
    }
  }

  lemma SharedPlace(req: Request, at: seq<nat>, want: seq<Byte>, j: nat, k: nat)
    requires |want| == Total(req.segments) && at == Addresses(req.segments) && Coherent(req, want)
    requires j <= k < |at| && at[j] == at[k]
    ensures want[j] == want[k]
  {
  }

  lemma ReadBackCoheres(req: Request, w: World, want: seq<Byte>)
    requires Parsed(req, |w.mem|) && Landed(req, w) && Gather(w.mem, req.segments) == want
    ensures Coherent(req, want)
  {
    GatherIsAddresses(w.mem, req.segments);
  }

  lemma LandedIff(req: Request, w: World)
    requires Parsed(req, |w.mem|) && Landed(req, w)
    ensures var want := FileRange(w.file, req.offset, req.total);
      Gather(w.mem, req.segments) == want <==> Coherent(req, want)
  {
    var got, want := Gather(w.mem, req.segments), FileRange(w.file, req.offset, req.total);
    if Coherent(req, want) {
      GatherIsAddresses(w.mem, req.segments);
      forall k: nat | k < |got| ensures got[k] == want[k] {
        LandedAt(req, w, Addresses(req.segments), want, k);
      }
      SeqExt(got, want);
    }
    if got == want {
      ReadBackCoheres(req, w, want);
    }
  }

  lemma ReadStepLeavesFile(d: Disk, req: Request, p: Phase, l: Label, p2: Phase)
    requires Probed(d) && Step(d, req, p, l, p2) && p.slot.op.Read?
    ensures SameFileIn(p2.w.file, p.w.file, req.offset, req.offset + req.total)
  {
  }

  lemma SameFileTrans(a: seq<Byte>, b: seq<Byte>, c: seq<Byte>, lo: nat, hi: nat)
    requires SameFileIn(a, b, lo, hi) && SameFileIn(b, c, lo, hi)
    ensures SameFileIn(a, c, lo, hi)
  {
  }

  lemma ReadLeavesStep(
    d: Disk, hostBase: nat, req: Request, junk: seq<Byte>, phases: seq<Phase>, labels: seq<Label>, i: nat)
    requires Probed(d) && IsRun(d, hostBase, req, junk, phases, labels) && req.op.Read? && i < |labels|
    ensures SameFileIn(phases[i + 1].w.file, phases[i].w.file, req.offset, req.offset + req.total)
  {
    assert Step(d, req, phases[i], labels[i], phases[i + 1]);
    RunKeepsReadInv(d, hostBase, req, junk, phases, labels, i);
    ReadStepLeavesFile(d, req, phases[i], labels[i], phases[i + 1]);
  }

  lemma {:induction false} ReadLeavesFile(
    d: Disk, hostBase: nat, req: Request, junk: seq<Byte>, phases: seq<Phase>, labels: seq<Label>, i: nat)
    requires Probed(d) && IsRun(d, hostBase, req, junk, phases, labels) && req.op.Read? && i < |phases|
    ensures SameFileIn(phases[i].w.file, phases[0].w.file, req.offset, req.offset + req.total)
  {
    if i > 0 {
      ReadLeavesFile(d, hostBase, req, junk, phases, labels, i - 1);
      ReadLeavesStep(d, hostBase, req, junk, phases, labels, i - 1);
      SameFileTrans(phases[i].w.file, phases[i - 1].w.file, phases[0].w.file, req.offset, req.offset + req.total);
    }
  }

  lemma SameRange(a: seq<Byte>, b: seq<Byte>, offset: nat, n: nat)
    requires SameFileIn(a, b, offset, offset + n)
    ensures FileRange(a, offset, n) == FileRange(b, offset, n)
  {
    forall k: nat | k < n ensures FileRange(a, offset, n)[k] == FileRange(b, offset, n)[k] {
      assert FileByte(a, offset + k) == FileByte(b, offset + k);
    }
    SeqExt(FileRange(a, offset, n), FileRange(b, offset, n));
  }

  /** Transfer refinement, reads. However a read was cut up, interrupted, refused, staged or
      stopped by end of file, and whatever else ran meanwhile: if it ends OK, each byte of the guest's
      segments is the file's, zero-extended, the last one where positions share an address, and
      the status byte is OK. So the segments read as the file's range if and only if the request
      does not ask for two different bytes at one address. */
  lemma ReadRefinesFile(
    d: Disk, hostBase: nat, req: Request, junk: seq<Byte>, phases: seq<Phase>, labels: seq<Label>, i: nat)
    requires Probed(d) && IsRun(d, hostBase, req, junk, phases, labels) && req.op.Read? && i < |phases|
    requires phases[i].Finished? && phases[i].status == BLK_S_OK
    ensures InBounds(req.segments, |phases[i].w.mem|) && Landed(req, phases[i].w)
    ensures var want := FileRange(phases[0].w.file, req.offset, req.total);
      && FileRange(phases[i].w.file, req.offset, req.total) == want
      && (Gather(phases[i].w.mem, req.segments) == want <==> Coherent(req, want))
  {
    RunKeepsReadInv(d, hostBase, req, junk, phases, labels, i);
    ReadLeavesFile(d, hostBase, req, junk, phases, labels, i);
    SameRange(phases[i].w.file, phases[0].w.file, req.offset, req.total);
    LandedIff(req, phases[i].w);
  }

  /** A read that goes straight at the guest's pages and is served in one piece. */
  lemma OneShotRead(d: Disk, hostBase: nat, req: Request, mem: seq<Byte>, file: seq<Byte>)
    returns (phases: seq<Phase>, labels: seq<Label>)
    requires Probed(d) && Parsed(req, |mem|) && req.op.Read? && 0 < req.total && req.offset + req.total <= |file|
    requires DirectOk(d, hostBase, req.offset, req.segments)
    ensures IsRun(d, hostBase, req, [], phases, labels) && phases[0].w == World(mem, file)
    ensures |labels| == 1 && phases[1].Finished? && phases[1].status == BLK_S_OK && |phases[1].w.mem| == |mem|
  {
    var s := Slot(0, req.head, req.op, req.statusAddr, req.segments, req.segments, None,
                  req.offset, 0, req.total, req.total, false);
    var w0 := World(mem, file);
    var w1 := World(Scatter(mem, req.segments, FileRange(file, req.offset, req.total)), file);
    var w2 := w1.(mem := WithStatus(w1.mem, req.statusAddr, BLK_S_OK));
    phases, labels := [InFlight(s, w0), Finished(BLK_S_OK, w2)], [Completion(req.total, s, w1, [])];
    assert OnDone(d, s, w1.mem, req.total, []) == Finish(BLK_S_OK, w1.mem);
    assert Step(d, req, phases[0], labels[0], phases[1]);
  }

  // -- what else a read touches --

  lemma ScatterOutside(mem: seq<Byte>, segs: seq<Seg>, data: seq<Byte>)
    requires InBounds(segs, |mem|)
    ensures SameOutside(Scatter(mem, segs, data), mem, segs)
  {
    forall a: nat | a < |mem| && !Covers(segs, a) ensures Scatter(mem, segs, data)[a] == mem[a] {
      ScatterFrame(mem, segs, data, a);
    }
  }

  lemma SameOutsideWider(a: seq<Byte>, b: seq<Byte>, segs: seq<Seg>, n: nat)
    requires InBounds(segs, |b|) && SameOutside(a, b, DropBytes(segs, n))
    ensures SameOutside(a, b, segs)
  {
    DropKeepsShape(segs, n, |b|);
  }

  lemma KernelReadTouches(req: Request, s: Slot, w: World, result: int, s1: Slot, w1: World)
    requires Carries(req, s, |w.mem|) && Positioned(req, s)
    requires KernelReads(s, w, result, s1, w1) && Carries(req, s1, |w1.mem|)
    ensures w1.file == w.file && SameOutside(w1.mem, w.mem, req.segments)
  {
    ListShape(req, s, w);
    if s.bounce.None? {
      if result >= 0 {
        ScatterOutside(w.mem, s.iovs, FileRange(w.file, s.offset, result));
      }
      SameOutsideWider(w1.mem, w.mem, req.segments, s.done);
    }
  }

  lemma CompletionTouches(d: Disk, req: Request, s: Slot, mem: seq<Byte>, result: int, junk: seq<Byte>)
    requires Probed(d) && Carries(req, s, |mem|) && req.op.Read?
    ensures var o := OnDone(d, s, mem, result, junk); o.Finish? ==> SameOutside(o.mem, mem, req.segments)
  {
    var o := OnDone(d, s, mem, result, junk);
    if o.Finish? && result >= 0 {
      var t := s.(done := s.done + result, offset := s.offset + result);
      if t.bounce.Some? {
        var u := if t.done < t.ioLen then t.(bounce := Some(ZeroFrom(t.bounce.value, t.done))) else t;
        ScatterOutside(mem, u.segments, u.bounce.value.buf[u.bounce.value.skip..u.bounce.value.skip + u.total]);
      } else if t.done < t.ioLen {
        SameOutsideWider(o.mem, mem, req.segments, t.done);
      }
    }
  }

  lemma CoversMore(segs: seq<Seg>, x: Seg, a: int)
    ensures Covers(segs, a) ==> Covers(segs + [x], a)
    ensures x.addr <= a < x.addr + x.len ==> Covers(segs + [x], a)
  {
    var more := segs + [x];
    assert more[|segs|] == x;
    if Covers(segs, a) {
      var i :| 0 <= i < |segs| && segs[i].addr <= a < segs[i].addr + segs[i].len;
      assert more[i] == segs[i];
    }
  }

  lemma StatusTouches(mem: seq<Byte>, before: seq<Byte>, req: Request, status: nat)
    requires SameOutside(mem, before, req.segments)
    ensures SameOutside(WithStatus(mem, req.statusAddr, status), before, Owned(req))
  {
    forall a | 0 <= a < |mem| && !Covers(Owned(req), a)
      ensures WithStatus(mem, req.statusAddr, status)[a] == before[a]
    {
      CoversMore(req.segments, Seg(req.statusAddr, 1), a);
    }
  }

  /** The bytes the driver handed over with a read: its data segments and the status byte. */
  function Owned(req: Request): seq<Seg> {
    req.segments + [Seg(req.statusAddr, 1)]
  }

  /** A step of a read changes the file not at all, and guest memory only in the request's segments, or
      at the end in its status byte. */
  ghost predicate ReadStays(req: Request, before: World, p: Phase) {
    && p.w.file == before.file
    && SameOutside(p.w.mem, before.mem, if p.InFlight? then req.segments else Owned(req))
  }

  lemma ReadStepTouches(
    d: Disk, req: Request, s: Slot, w: World, result: int, s1: Slot, w1: World, junk: seq<Byte>, p: Phase)
    requires Probed(d) && Carries(req, s, |w.mem|) && Positioned(req, s) && req.op.Read?
    requires KernelReads(s, w, result, s1, w1) && Carries(req, s1, |w1.mem|) && Leads(d, s1, w1, result, junk, p)
    ensures ReadStays(req, w, p)
  {
    KernelReadTouches(req, s, w, result, s1, w1);
    CompletionTouches(d, req, s1, w1.mem, result, junk);
    match OnDone(d, s1, w1.mem, result, junk)
    case Finish(status, mem) => StatusTouches(mem, w.mem, req, status);
    case Again(_) =>
  }

  /** And the rest of the guarantee: over any run, no step of a read changes the file, or a byte of
      guest memory outside the request's segments and its status byte. */
  lemma ReadTouchesOnlyItsPages(d: Disk, hostBase: nat, req: Request, junk: seq<Byte>,
                                phases: seq<Phase>, labels: seq<Label>, i: nat)
    requires Probed(d) && IsRun(d, hostBase, req, junk, phases, labels) && req.op.Read?
    requires i < |labels| && labels[i].Completion?
    ensures ReadStays(req, phases[i].w, phases[i + 1])
  {
    RunKeepsReadInv(d, hostBase, req, junk, phases, labels, i);
    var p, l := phases[i], labels[i];
    assert Step(d, req, p, l, phases[i + 1]);
    KernelReadKeepsShape(req, p.slot, p.w, l.result, l.s, l.w);
    ReadStepTouches(d, req, p.slot, p.w, l.result, l.s, l.w, l.junk, phases[i + 1]);
  }

  // ---- writes ----

  /** The file holds the first `upto` bytes of the data. */
  predicate Stored(req: Request, file: seq<Byte>, data: seq<Byte>, upto: nat) {
    forall k :: 0 <= k < upto && k < |data| ==> FileByte(file, req.offset + k) == data[k]
  }

  /** The data on its way: in the guest's pages and, when staged, in a window of exactly its
      size. */
  ghost predicate WriteHeld(req: Request, s: Slot, mem: seq<Byte>, data: seq<Byte>) {
    && Carries(req, s, |mem|) && Positioned(req, s)
    && Gather(mem, req.segments) == data
    && s.ioLen == req.total
    && (s.bounce.Some? ==> s.bounce.value.skip == 0 && s.bounce.value.buf == data)
  }

  ghost predicate WriteInv(req: Request, data: seq<Byte>, p: Phase) {
    match p
    case InFlight(s, w) => WriteHeld(req, s, w.mem, data) && Stored(req, w.file, data, s.done)
    case Finished(status, w) => status == BLK_S_OK ==> Stored(req, w.file, data, req.total)
  }

  /** A non-empty write that can be staged is staged whole. */
  lemma StagedWriteStarts(d: Disk, req: Request, mem: seq<Byte>, s: Slot, junk: seq<Byte>)
    requires Probed(d) && Carries(req, s, |mem|) && req.op.Write? && req.total > 0
    requires s.offset == req.offset && s.done == 0
    ensures var r := Stage(d, mem, s, junk);
      r.Some? ==> WriteHeld(req, r.value, mem, Gather(mem, req.segments)) && r.value.done == 0
  {
    StagedWhole(d, mem, s, junk);
    var r, data := Stage(d, mem, s, junk), Gather(mem, s.segments);
    if r.Some? {
      var one := [Seg(0, |data|)];
      assert DropBytes(one, 0) == one;
      assert r.value.iovs == one && |data| == req.total;
    }
  }

  lemma WholeWrite(raw: seq<Byte>, at: nat, data: seq<Byte>)
    requires at == 0 && |raw| == |data|
    ensures WriteAt(raw, at, data) == data
  {
    SeqExt(WriteAt(raw, at, data), data);
  }

  /** The window of a staged write is exactly its data. */
  lemma StagedWhole(d: Disk, mem: seq<Byte>, s: Slot, junk: seq<Byte>)
    requires Probed(d) && Sound(s, |mem|) && s.op.Write? && s.total > 0
    ensures var r := Stage(d, mem, s, junk);
      r.Some? ==>
        r.value == s.(ioLen := s.total, iovs := [Seg(0, |Gather(mem, s.segments)|)],
                      bounce := Some(Bounce(Gather(mem, s.segments), 0)), bounced := true)
  {
    WindowHoldsRequest(d, s.offset, s.total);
    var shape := BounceShape(d, s.offset, s.total);
    if Stage(d, mem, s, junk).Some? {
      WholeWrite(Uninit(junk, shape.ioLen), shape.head, Gather(mem, s.segments));
    }
  }

  /** What the kernel is asked to write is the rest of the data. */
  lemma RemainingData(req: Request, s: Slot, w: World, data: seq<Byte>)
    requires WriteHeld(req, s, w.mem, data)
    ensures InBounds(s.iovs, |Buffer(s, w)|) && s.done <= |data|
    ensures Gather(Buffer(s, w), s.iovs) == data[s.done..] && s.offset == req.offset + s.done
  {
    ListShape(req, s, w);
    if s.bounce.Some? {
      GatherWhole(data);
    }
    GatherDrop(Buffer(s, w), WholeList(s), s.done);
  }

  lemma FileWriteAt(file: seq<Byte>, offset: nat, data: seq<Byte>, i: nat)
    ensures FileByte(FileWrite(file, offset, data), i)
         == if offset <= i < offset + |data| then data[i - offset] else FileByte(file, i)
  {
    var after := FileWrite(file, offset, data);
    if data != [] && i < |after| {
      assert after[i] == if offset <= i < offset + |data| then data[i - offset] else FileByte(file, i);
    }
  }

  /** Storing the next bytes of the data, in terms of the file alone. */
  lemma FileTakes(
    req: Request, file: seq<Byte>, data: seq<Byte>, done: nat, at: nat, piece: seq<Byte>, after: seq<Byte>)
    requires Stored(req, file, data, done) && done + |piece| <= |data| <= req.total && at == req.offset + done
    requires forall k :: 0 <= k < |piece| ==> piece[k] == data[done + k]
    requires after == FileWrite(file, at, piece)
    ensures Stored(req, after, data, done + |piece|)
    ensures SameFileOutside(after, file, req.offset, req.offset + req.total)
  {
    forall k | 0 <= k < done + |piece| && k < |data| ensures FileByte(after, req.offset + k) == data[k] {
      FileWriteAt(file, at, piece, req.offset + k);
    }
    forall i: nat | !(req.offset <= i < req.offset + req.total) ensures FileByte(after, i) == FileByte(file, i) {
      FileWriteAt(file, at, piece, i);
    }
  }

  /** A failed attempt may have left anything in the rest of its range. */
  lemma FileSpoiled(req: Request, file: seq<Byte>, after: seq<Byte>, data: seq<Byte>, done: nat, lo: nat, hi: nat)
    requires Stored(req, file, data, done) && SameFileOutside(after, file, lo, hi)
    requires lo == req.offset + done && hi == req.offset + req.total && done <= |data|
    ensures Stored(req, after, data, done) && SameFileOutside(after, file, req.offset, req.offset + req.total)
  {
    forall k | 0 <= k < done && k < |data| ensures FileByte(after, req.offset + k) == data[k] {
      assert FileByte(after, req.offset + k) == FileByte(file, req.offset + k);
    }
  }

  lemma WriteAttempt(req: Request, s: Slot, w: World, data: seq<Byte>, result: nat, w1: World)
    requires WriteHeld(req, s, w.mem, data) && Stored(req, w.file, data, s.done) && KernelWrites(s, w, result, s, w1)
    ensures SameFileOutside(w1.file, w.file, req.offset, req.offset + req.total)
    ensures s.done + result <= |data| && Stored(req, w1.file, data, s.done + result)
  {
    RemainingData(req, s, w, data);
    var rest := Gather(Buffer(s, w), s.iovs);
    FileTakes(req, w.file, data, s.done, s.offset, rest[..result], w1.file);
  }

  lemma WriteFailure(req: Request, s: Slot, w: World, data: seq<Byte>, result: int, w1: World)
    requires WriteHeld(req, s, w.mem, data) && Stored(req, w.file, data, s.done) && KernelWrites(s, w, result, s, w1)
    requires result < 0
    ensures SameFileOutside(w1.file, w.file, req.offset, req.offset + req.total) && Stored(req, w1.file, data, s.done)
  {
    RemainingData(req, s, w, data);
    FileSpoiled(req, w.file, w1.file, data, s.done, s.offset, s.offset + Total(s.iovs));
  }

  /** One attempt at a write changes the file only inside the request's own range, leaves
      guest memory alone, and stores what it reports. */
  lemma KernelWriteStores(req: Request, s: Slot, w: World, data: seq<Byte>, result: int, s1: Slot, w1: World)
    requires WriteHeld(req, s, w.mem, data) && Stored(req, w.file, data, s.done)
    requires KernelWrites(s, w, result, s1, w1)
    ensures s1 == s && w1.mem == w.mem
    ensures SameFileOutside(w1.file, w.file, req.offset, req.offset + req.total)
    ensures if result > 0 then s.done + result <= |data| && Stored(req, w1.file, data, s.done + result)
            else Stored(req, w1.file, data, s.done)
  {
    if result >= 0 {
      WriteAttempt(req, s, w, data, result, w1);
    } else {
      WriteFailure(req, s, w, data, result, w1);
    }
  }

  ghost predicate WriteOutcome(req: Request, w: World, data: seq<Byte>, o: Outcome) {
    match o
    case Again(t) => WriteHeld(req, t, w.mem, data) && Stored(req, w.file, data, t.done)
    case Finish(status, mem) => mem == w.mem && (status == BLK_S_OK ==> Stored(req, w.file, data, req.total))
  }

  lemma WriteCompletion(d: Disk, req: Request, s: Slot, w: World, data: seq<Byte>, result: int, junk: seq<Byte>)
    requires Probed(d) && WriteHeld(req, s, w.mem, data) && req.op.Write? && req.total > 0
    requires if result > 0 then s.done + result <= |data| && Stored(req, w.file, data, s.done + result)
             else Stored(req, w.file, data, s.done)
    ensures WriteOutcome(req, w, data, OnDone(d, s, w.mem, result, junk))
  {
    if result < 0 {
      if -result == EINVAL && !s.bounced && s.done == 0 {
        StagedWriteStarts(d, req, w.mem, s, junk);
      }
    } else if result > 0 && s.done + result < s.ioLen {
      DropDrop(WholeList(s), s.done, result);
    }
  }

  lemma WriteStarts(
    d: Disk, hostBase: nat, req: Request, mem: seq<Byte>, file: seq<Byte>, generation: nat, junk: seq<Byte>)
    requires Probed(d) && Parsed(req, |mem|) && req.op.Write? && req.total > 0
    ensures var r := Prepare(d, hostBase, mem, req, generation, junk);
      r.Some? ==> WriteInv(req, Gather(mem, req.segments), InFlight(r.value, World(mem, file)))
  {
    if !DirectOk(d, hostBase, req.offset, req.segments) {
      var s := Slot(generation, req.head, req.op, req.statusAddr, req.segments, [], None,
                    req.offset, 0, req.total, req.total, false);
      StagedWriteStarts(d, req, mem, s, junk);
    }
  }

  lemma InterferenceKeepsWrite(req: Request, data: seq<Byte>, s: Slot, w: World, w': World)
    requires WriteInv(req, data, InFlight(s, w)) && Respects(req, w, w')
    ensures WriteInv(req, data, InFlight(s, w'))
  {
    GatherLocal(w.mem, w'.mem, s.segments);
  }

  lemma {:induction false} RunKeepsWriteInv(
    d: Disk, hostBase: nat, req: Request, junk: seq<Byte>, phases: seq<Phase>, labels: seq<Label>, i: nat)
    requires Probed(d) && IsRun(d, hostBase, req, junk, phases, labels)
    requires req.op.Write? && req.total > 0 && i < |phases|
    ensures WriteInv(req, Gather(phases[0].w.mem, req.segments), phases[i])
  {
    var data := Gather(phases[0].w.mem, req.segments);
    if i == 0 {
      WriteStarts(d, hostBase, req, phases[0].w.mem, phases[0].w.file, phases[0].slot.generation, junk);
    } else {
      RunKeepsWriteInv(d, hostBase, req, junk, phases, labels, i - 1);
      StepKeepsWriteInv(d, req, data, phases[i - 1], labels[i - 1], phases[i]);
    }
  }

  lemma StepKeepsWriteInv(d: Disk, req: Request, data: seq<Byte>, p: Phase, l: Label, p2: Phase)
    requires Probed(d) && req.op.Write? && req.total > 0 && WriteInv(req, data, p) && Step(d, req, p, l, p2)
    ensures WriteInv(req, data, p2)
  {
    match l
    case Interfere => InterferenceKeepsWrite(req, data, p.slot, p.w, p2.w);
    case Completion(result, s, w, more) =>
      KernelWriteStores(req, p.slot, p.w, data, result, s, w);
      WriteCompletion(d, req, s, w, data, result, more);
  }

  /** Transfer refinement, writes. If a non-empty write ends OK, the file holds at
      [offset, offset + total) exactly what the guest's segments held when it was taken. */
  lemma WriteRefinesFile(
    d: Disk, hostBase: nat, req: Request, junk: seq<Byte>, phases: seq<Phase>, labels: seq<Label>, i: nat)
    requires Probed(d) && IsRun(d, hostBase, req, junk, phases, labels)
    requires req.op.Write? && req.total > 0 && i < |phases|
    requires phases[i].Finished? && phases[i].status == BLK_S_OK
    ensures FileRange(phases[i].w.file, req.offset, req.total) == Gather(phases[0].w.mem, req.segments)
  {
    RunKeepsWriteInv(d, hostBase, req, junk, phases, labels, i);
    SeqExt(FileRange(phases[i].w.file, req.offset, req.total), Gather(phases[0].w.mem, req.segments));
  }

  // -- what else a write touches --

  /** Bytes of the file a write may reach: its own, or one for a write of none. */
  function Reach(req: Request): nat {
    if req.total == 0 then 1 else req.total
  }

  /** A write in flight, empty or not: its window starts at its offset and ends within its reach. */
  ghost predicate WriteShaped(req: Request, s: Slot, memSize: nat) {
    && Carries(req, s, memSize) && Positioned(req, s)
    && (s.bounce.Some? ==> s.bounce.value.skip == 0 && |s.bounce.value.buf| == Reach(req))
  }

  lemma StagedShaped(d: Disk, req: Request, mem: seq<Byte>, s: Slot, junk: seq<Byte>)
    requires Probed(d) && Carries(req, s, |mem|) && req.op.Write? && s.offset == req.offset && s.done == 0
    ensures var r := Stage(d, mem, s, junk); r.Some? ==> WriteShaped(req, r.value, |mem|)
  {
    WindowHoldsRequest(d, s.offset, s.total);
  }

  lemma WriteStartsShaped(d: Disk, hostBase: nat, req: Request, mem: seq<Byte>, generation: nat, junk: seq<Byte>)
    requires Probed(d) && Parsed(req, |mem|) && req.op.Write?
    ensures var r := Prepare(d, hostBase, mem, req, generation, junk); r.Some? ==> WriteShaped(req, r.value, |mem|)
  {
    if !DirectOk(d, hostBase, req.offset, req.segments) {
      var s := Slot(generation, req.head, req.op, req.statusAddr, req.segments, [], None,
                    req.offset, 0, req.total, req.total, false);
      StagedShaped(d, req, mem, s, junk);
    }
  }

  lemma KernelWriteTouches(req: Request, s: Slot, w: World, result: int, s1: Slot, w1: World)
    requires WriteShaped(req, s, |w.mem|) && KernelWrites(s, w, result, s1, w1)
    ensures s1 == s && w1.mem == w.mem && s.done + Total(s.iovs) <= Total(WholeList(s)) && result <= Total(s.iovs)
    ensures SameFileOutside(w1.file, w.file, req.offset, req.offset + Reach(req))
  {
    ListShape(req, s, w);
    if s.bounce.Some? {
      GatherWhole(s.bounce.value.buf);
    }
    if result >= 0 {
      var piece := Gather(Buffer(s, w), s.iovs)[..result];
      forall i: nat | !(req.offset <= i < req.offset + Reach(req)) ensures FileByte(w1.file, i) == FileByte(w.file, i) {
        FileWriteAt(w.file, s.offset, piece, i);
      }
    }
  }

  lemma WriteStepShaped(d: Disk, req: Request, s: Slot, w: World, result: int, junk: seq<Byte>)
    requires Probed(d) && WriteShaped(req, s, |w.mem|) && req.op.Write? && s.done + result <= Total(WholeList(s))
    ensures match OnDone(d, s, w.mem, result, junk)
      case Finish(status, mem) => mem == w.mem
      case Again(t) => WriteShaped(req, t, |w.mem|)
  {
    if result < 0 {
      if -result == EINVAL && !s.bounced && s.done == 0 {
        StagedShaped(d, req, w.mem, s, junk);
      }
    } else if result > 0 && s.done + result < s.ioLen {
      DropDrop(WholeList(s), s.done, result);
    }
  }

  /** A step of a write changes the file only within its reach, and guest memory only at the end, in its
      status byte. */
  ghost predicate WriteStays(req: Request, before: World, p: Phase) {
    && SameFileOutside(p.w.file, before.file, req.offset, req.offset + Reach(req))
    && p.w.mem == if p.InFlight? then before.mem else WithStatus(before.mem, req.statusAddr, p.status)
  }

  lemma WriteStepTouches(d: Disk, req: Request, s: Slot, w: World, result: int, s1: Slot, w1: World, junk: seq<Byte>,
                         p: Phase)
    requires Probed(d) && WriteShaped(req, s, |w.mem|) && req.op.Write? && KernelWrites(s, w, result, s1, w1)
    requires Sound(s1, |w1.mem|) && Leads(d, s1, w1, result, junk, p)
    ensures WriteStays(req, w, p) && (p.InFlight? ==> WriteShaped(req, p.slot, |p.w.mem|))
  {
    KernelWriteTouches(req, s, w, result, s1, w1);
    WriteStepShaped(d, req, s1, w1, result, junk);
  }

  lemma StepKeepsShape(d: Disk, req: Request, p: Phase, l: Label, p2: Phase)
    requires Probed(d) && req.op.Write? && Step(d, req, p, l, p2) && WriteShaped(req, p.slot, |p.w.mem|)
    ensures p2.InFlight? ==> WriteShaped(req, p2.slot, |p2.w.mem|)
  {
    if l.Completion? {
      WriteStepTouches(d, req, p.slot, p.w, l.result, l.s, l.w, l.junk, p2);
    }
  }

  lemma {:induction false} RunKeepsShape(
    d: Disk, hostBase: nat, req: Request, junk: seq<Byte>, phases: seq<Phase>, labels: seq<Label>, i: nat)
    requires Probed(d) && IsRun(d, hostBase, req, junk, phases, labels) && req.op.Write?
    requires i < |phases| && phases[i].InFlight?
    ensures WriteShaped(req, phases[i].slot, |phases[i].w.mem|)
  {
    if i == 0 {
      WriteStartsShaped(d, hostBase, req, phases[0].w.mem, phases[0].slot.generation, junk);
    } else {
      assert Step(d, req, phases[i - 1], labels[i - 1], phases[i]);
      RunKeepsShape(d, hostBase, req, junk, phases, labels, i - 1);
      StepKeepsShape(d, req, phases[i - 1], labels[i - 1], phases[i]);
    }
  }

  /** Whatever its outcome, no step of a write changes the file outside its range, or guest memory but for
      its status byte. */
  lemma WriteTouchesOnlyItsRange(
    d: Disk, hostBase: nat, req: Request, junk: seq<Byte>, phases: seq<Phase>, labels: seq<Label>, i: nat)
    requires Probed(d) && IsRun(d, hostBase, req, junk, phases, labels) && req.op.Write?
    requires i < |labels| && labels[i].Completion?
    ensures WriteStays(req, phases[i].w, phases[i + 1])
  {
    var p, l := phases[i], labels[i];
    assert Step(d, req, p, l, phases[i + 1]);
    RunKeepsShape(d, hostBase, req, junk, phases, labels, i);
    WriteStepTouches(d, req, p.slot, p.w, l.result, l.s, l.w, l.junk, phases[i + 1]);
  }

  /** The empty write is the exception: refused once with EINVAL, it is staged through the
      one-byte minimum allocation, and the kernel is then asked to write that byte of
      uninitialised memory. At every aligned offset a run exists that reports OK and has
      changed the file. */
  lemma EmptyWriteMayStray(d: Disk, hostBase: nat, req: Request, mem: seq<Byte>, file: seq<Byte>)
    returns (phases: seq<Phase>, labels: seq<Label>)
    requires Probed(d) && req.op.Write? && req.segments == [] && req.total == 0
    requires req.offset % OffsetAlign(d) == 0
    ensures IsRun(d, hostBase, req, [], phases, labels) && phases[0].w == World(mem, file)
    ensures |labels| == 2 && labels[1].Completion? && phases[2].Finished? && phases[2].status == BLK_S_OK
    ensures phases[1].w.file == file && FileByte(phases[2].w.file, req.offset) != FileByte(file, req.offset)
  {
    var offset := req.offset;
    var stray: Byte := if FileByte(file, offset) == 0 then 1 else 0;
    var w0 := World(mem, file);
    var s0 := Slot(0, req.head, Write, req.statusAddr, [], [], None, offset, 0, 0, 0, false);
    var w1 := World(mem, FileWrite(file, offset, [stray]));
    var w2 := w1.(mem := WithStatus(mem, req.statusAddr, BLK_S_OK));
    assert Prepare(d, hostBase, mem, req, 0, []) == Some(s0);
    EmptyWriteStages(d, mem, s0, stray);
    var s1 := Stage(d, mem, s0, [stray]).value;
    GatherWhole([stray]);
    assert Gather([stray], s1.iovs)[..1] == [stray];
    phases := [InFlight(s0, w0), InFlight(s1, w0), Finished(BLK_S_OK, w2)];
    labels := [Completion(-22, s0, w0, [stray]), Completion(1, s1, w1, [])];
    assert Step(d, req, phases[0], labels[0], phases[1]);
    assert Step(d, req, phases[1], labels[1], phases[2]);
    assert IsRun(d, hostBase, req, [], phases, labels);
  }

  lemma EmptyWriteStages(d: Disk, mem: seq<Byte>, s: Slot, stray: Byte)
    requires Probed(d) && s.offset % OffsetAlign(d) == 0
    requires s.segments == [] && s.total == 0 && s.op.Write? && Sound(s, |mem|)
    ensures Stage(d, mem, s, [stray])
         == Some(s.(ioLen := 0, iovs := [Seg(0, 1)], bounce := Some(Bounce([stray], 0)), bounced := true))
  {
    WindowIsLeast(d, s.offset, 0, s.offset, s.offset);
    WindowHoldsRequest(d, s.offset, 0);
    assert BounceShape(d, s.offset, 0).head == 0;
    assert WriteAt(Uninit([stray], 1), 0, Gather(mem, [])) == [stray];
  }

  /** At a misaligned offset it is refused outright, so that exception is complete. */
  lemma EmptyWriteMisalignedIsRefused(
    d: Disk, hostBase: nat, req: Request, mem: seq<Byte>, generation: nat, junk: seq<Byte>)
    requires Probed(d) && Parsed(req, |mem|) && req.op.Write? && req.segments == []
    ensures Prepare(d, hostBase, mem, req, generation, junk).None? <==> req.offset % OffsetAlign(d) != 0
  {}

  /** No step of this run changes the file outside the request's range. */
  ghost predicate StepsInRange(req: Request, phases: seq<Phase>, labels: seq<Label>) {
    |phases| == |labels| + 1 &&
    forall i :: 0 <= i < |labels| && labels[i].Completion? ==>
      SameFileOutside(phases[i + 1].w.file, phases[i].w.file, req.offset, req.offset + req.total)
  }

  /** Nor does any step of any run that ends OK. */
  ghost predicate StaysInRange(d: Disk, hostBase: nat, req: Request, mem: seq<Byte>, file: seq<Byte>)
    requires Probed(d)
  {
    forall junk: seq<Byte>, phases: seq<Phase>, labels: seq<Label> ::
      (&& IsRun(d, hostBase, req, junk, phases, labels) && phases[0].w == World(mem, file)
       && phases[|labels|].Finished? && phases[|labels|].status == BLK_S_OK) ==> StepsInRange(req, phases, labels)
  }

  lemma NoSegments(req: Request, memSize: nat)
    requires Parsed(req, memSize) && forall i :: 0 <= i < |req.segments| ==> req.segments[i].len > 0
    ensures req.total == 0 <==> req.segments == []
  {
    if req.segments != [] {
      assert Total(req.segments) >= req.segments[0].len;
    }
  }

  /** A parsed write stays inside its range in every run that ends OK if and only if it has a byte to
      write, or is refused for its alignment. */
  lemma WriteStaysInRangeIff(d: Disk, hostBase: nat, req: Request, mem: seq<Byte>, file: seq<Byte>)
    requires Probed(d) && req.op.Write? && Parsed(req, |mem|)
    requires forall i :: 0 <= i < |req.segments| ==> req.segments[i].len > 0
    ensures StaysInRange(d, hostBase, req, mem, file) <==> req.total > 0 || req.offset % OffsetAlign(d) != 0
  {
    NoSegments(req, |mem|);
    if req.total > 0 {
      forall junk: seq<Byte>, phases: seq<Phase>, labels: seq<Label>
        | IsRun(d, hostBase, req, junk, phases, labels)
        ensures StepsInRange(req, phases, labels)
      {
        RunStaysInRange(d, hostBase, req, junk, phases, labels);
      }
    } else if req.offset % OffsetAlign(d) != 0 {
      forall junk: seq<Byte>, phases: seq<Phase>, labels: seq<Label>
        ensures !(IsRun(d, hostBase, req, junk, phases, labels) && phases[0].w == World(mem, file))
      {
        NoMisalignedRun(d, hostBase, req, mem, file, junk, phases, labels);
      }
    } else {
      var phases, labels := EmptyWriteMayStray(d, hostBase, req, mem, file);
      assert !SameFileOutside(phases[2].w.file, phases[1].w.file, req.offset, req.offset + req.total);
      assert !StepsInRange(req, phases, labels);
    }
  }

  lemma NoMisalignedRun(d: Disk, hostBase: nat, req: Request, mem: seq<Byte>, file: seq<Byte>,
                        junk: seq<Byte>, phases: seq<Phase>, labels: seq<Label>)
    requires Probed(d) && req.op.Write? && Parsed(req, |mem|) && req.segments == []
    requires req.offset % OffsetAlign(d) != 0
    ensures !(IsRun(d, hostBase, req, junk, phases, labels) && phases[0].w == World(mem, file))
  {
    var generation := if phases != [] && phases[0].InFlight? then phases[0].slot.generation else 0;
    EmptyWriteMisalignedIsRefused(d, hostBase, req, mem, generation, junk);
  }

  lemma RunStaysInRange(d: Disk, hostBase: nat, req: Request, junk: seq<Byte>, phases: seq<Phase>, labels: seq<Label>)
    requires Probed(d) && IsRun(d, hostBase, req, junk, phases, labels) && req.op.Write? && req.total > 0
    ensures StepsInRange(req, phases, labels)
  {
    forall i | 0 <= i < |labels| && labels[i].Completion?
      ensures SameFileOutside(phases[i + 1].w.file, phases[i].w.file, req.offset, req.offset + req.total)
    {
      WriteTouchesOnlyItsRange(d, hostBase, req, junk, phases, labels, i);
    }
  }

  // ---- the loops ----

  /** `advance`: drop `n` bytes from the front of a scatter-gather list. */
  method Advance(iovs: seq<Seg>, n: nat) returns (r: seq<Seg>)
    ensures r == DropBytes(iovs, n)
  {
    var v, left: nat, upto: nat := iovs, n, 0;
    var i := 0;
    assert iovs[0..] == iovs;
    while i < |iovs| && left > 0
      invariant 0 <= i <= |iovs| == |v| && upto <= |v|
      invariant left > 0 ==> upto == i && v == iovs && DropBytes(iovs, n) == DropBytes(iovs[i..], left)
      invariant left == 0 ==> v[upto..] == DropBytes(iovs, n)
    {
      assert iovs[i..][1..] == iovs[i + 1..];
      if left >= v[i].len {
        left := left - v[i].len;
        upto := upto + 1;
      } else {
        var cut := Seg(v[i].addr + left, v[i].len - left);
        assert v[i := cut][i..] == iovs[i..][0 := cut];
        v := v[i := cut];
        left := 0;
      }
      i := i + 1;
    }
    return v[upto..];
  }

  lemma CoversDropFirst(segs: seq<Seg>, at: nat, a: int)
    requires segs != [] && at <= segs[0].len
    ensures Covers(DropBytes(segs, at), a)
       <==> (segs[0].addr + at <= a < segs[0].addr + segs[0].len) || Covers(segs[1..], a)
  {
    var rest, tail := DropBytes(segs, at), segs[1..];
    if at == segs[0].len && at > 0 {
      assert rest == DropBytes(tail, at - segs[0].len) == tail;
    } else {
      assert |rest| == |segs| && rest[1..] == tail;
      CoversTail(rest);
      if Covers(rest, a) {
        var i :| 0 <= i < |rest| && rest[i].addr <= a < rest[i].addr + rest[i].len;
        if i > 0 {
          assert tail[i - 1] == rest[i];
        }
      }
      if rest[0].addr <= a < rest[0].addr + rest[0].len {
        assert Covers(rest, a);
      }
    }
  }

  function Zeroes(n: nat): seq<Byte> {
    seq<Byte>(n, i => 0)
  }

  lemma ZeroChunk(m: seq<Byte>, segs: seq<Seg>, at: nat, n: nat)
    requires segs != [] && at + n <= segs[0].len && InBounds(segs, |m|)
    ensures Zeroed(WriteAt(m, segs[0].addr + at, Zeroes(n)), DropBytes(segs, at + n)) == Zeroed(m, DropBytes(segs, at))
  {
    var l := Zeroed(WriteAt(m, segs[0].addr + at, Zeroes(n)), DropBytes(segs, at + n));
    var r := Zeroed(m, DropBytes(segs, at));
    forall a: nat | a < |l| ensures l[a] == r[a] {
      CoversDropFirst(segs, at + n, a);
      CoversDropFirst(segs, at, a);
    }
    SeqExt(l, r);
  }

  /** The rest of the segment that heads `list`, 4096 bytes at a time. */
  method ZeroSegment(mem: seq<Byte>, s: Seg, from: nat, ghost list: seq<Seg>) returns (m: seq<Byte>)
    requires list != [] && list[0] == s && InBounds(list, |mem|) && from < s.len
    ensures |m| == |mem| && Zeroed(m, DropBytes(list[1..], 0)) == Zeroed(mem, DropBytes(list, from))
  {
    m := mem;
    var at := from;
    while at < s.len
      invariant at <= s.len && |m| == |mem|
      invariant Zeroed(m, DropBytes(list, at)) == Zeroed(mem, DropBytes(list, from))
    {
      var n := if s.len - at <= 4096 then s.len - at else 4096;
      ZeroChunk(m, list, at, n);
      m := WriteAt(m, s.addr + at, Zeroes(n));
      at := at + n;
    }
  }

  /** `zero_fill`: zero what a short read did not reach. */
  method ZeroFill(mem: seq<Byte>, segs: seq<Seg>, done: nat) returns (m: seq<Byte>)
    requires InBounds(segs, |mem|)
    ensures m == Zeroed(mem, DropBytes(segs, done))
  {
    ghost var target := Zeroed(mem, DropBytes(segs, done));
    m := mem;
    var skip: nat, i: nat := done, 0;
    assert segs[0..] == segs;
    while i < |segs|
      invariant 0 <= i <= |segs| && |m| == |mem|
      invariant Zeroed(m, DropBytes(segs[i..], skip)) == target
    {
      var s := segs[i];
      ghost var here := segs[i..];
      assert here[1..] == segs[i + 1..] && InBounds(here, |m|);
      if skip >= s.len {
        if skip == 0 {
          ZeroChunk(m, here, 0, 0);
          EmptyHead(m, here);
        }
        skip := skip - s.len;
      } else {
        m := ZeroSegment(m, s, skip, here);
        skip := 0;
      }
      i := i + 1;
    }
    assert segs[|segs|..] == [];
    SeqExt(m, Zeroed(m, []));
  }

  lemma EmptyHead(m: seq<Byte>, segs: seq<Seg>)
    requires segs != [] && segs[0].len == 0
    ensures Zeroed(m, segs) == Zeroed(m, segs[1..])
  {
    forall a: nat | a < |m| ensures Covers(segs, a) <==> Covers(segs[1..], a) {
      CoversDropFirst(segs, 0, a);
    }
    SeqExt(Zeroed(m, segs), Zeroed(m, segs[1..]));
  }

  /** `copy_out`: lay a staged read over the guest's segments. */
  method CopyOut(mem: seq<Byte>, s: Slot) returns (m: seq<Byte>)
    requires Sound(s, |mem|) && s.bounce.Some?
    ensures m == CopiedOut(mem, s)
  {
    var b := s.bounce.value;
    var src := b.buf[b.skip..b.skip + s.total];
    var at: nat, i: nat := 0, 0;
    m := mem;
    assert s.segments[0..] == s.segments && src[0..] == src;
    while i < |s.segments|
      invariant i <= |s.segments| && at <= |src| && |m| == |mem|
      invariant |src| - at == Total(s.segments[i..])
      invariant InBounds(s.segments[i..], |m|)
      invariant Scatter(m, s.segments[i..], src[at..]) == Scatter(mem, s.segments, src)
    {
      var g := s.segments[i];
      assert s.segments[i..][1..] == s.segments[i + 1..];
      CopyStep(m, s.segments[i..], src[at..]);
      assert src[at..][..g.len] == src[at..at + g.len] && src[at..][g.len..] == src[at + g.len..];
      m := WriteAt(m, g.addr, src[at..at + g.len]);
      at := at + g.len;
      i := i + 1;
    }
    assert s.segments[i..] == [];
  }

  lemma CopyStep(m: seq<Byte>, segs: seq<Seg>, data: seq<Byte>)
    requires segs != [] && InBounds(segs, |m|) && |data| == Total(segs)
    ensures Scatter(WriteAt(m, segs[0].addr, data[..segs[0].len]), segs[1..], data[segs[0].len..])
         == Scatter(m, segs, data)
  {
    if |data| == segs[0].len {
      assert data[..segs[0].len] == data && data[segs[0].len..] == [];
      ScatterNothing(WriteAt(m, segs[0].addr, data), segs[1..]);
    }
  }
}
