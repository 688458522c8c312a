/** The GPU device's view of a descriptor chain: `Reader` copies the readable front of it,
    `Writer` lays response bytes over the rest, segment by segment. */
module GpuDescriptors {
  import opened Segments
  import opened Wrappers

  /** Most bytes the readable half of one chain may total. */
  const MAX_READABLE_BYTES: nat := 0x400_0000

  /** A chain entry; `writable` is VRING_DESC_F_WRITE. */
  datatype Descriptor = Descriptor(addr: nat, len: nat, writable: bool)

  datatype Error = TooLong(claimed: nat) | GuestMemory
  datatype Result<T> = Ok(value: T) | Err(error: Error)

  /** The chain up to its first writable descriptor. */
  function ReadableSegs(chain: seq<Descriptor>): seq<Seg> {
    if chain == [] || chain[0].writable then []
    else [Seg(chain[0].addr, chain[0].len)] + ReadableSegs(chain[1..])
  }

  /** The chain from its first writable descriptor on, whatever follows it. */
  function WritableSegs(chain: seq<Descriptor>): seq<Seg> {
    if chain == [] then []
    else if chain[0].writable then AllSegs(chain)
    else WritableSegs(chain[1..])
  }

  function AllSegs(chain: seq<Descriptor>): seq<Seg> {
    seq(|chain|, i requires 0 <= i < |chain| => Seg(chain[i].addr, chain[i].len))
  }

  function Concat(bufs: seq<seq<Byte>>): seq<Byte> {
    if bufs == [] then [] else Concat(bufs[..|bufs| - 1]) + bufs[|bufs| - 1]
  }

  function Min(a: nat, b: nat): nat {
    if a <= b then a else b
  }

  // ---- byte by byte ----

  /** The first `n` bytes of the concatenation live in memory of this size. */
  ghost predicate InMemory(at: seq<nat>, size: nat, n: nat) {
    n <= |at| && forall k: nat :: k < n ==> at[k] < size
  }

  /** They hold `data`. */
  ghost predicate Holds(at: seq<nat>, m: seq<Byte>, data: seq<Byte>) {
    InMemory(at, |m|, |data|) && forall k: nat :: k < |data| ==> m[at[k]] == data[k]
  }

  /** How many of the `n` bytes from the `p`th on come before the first that leaves memory. */
  ghost function InReach(at: seq<nat>, size: nat, p: nat, n: nat): (r: nat)
    requires p + n <= |at|
    ensures r <= n
    decreases n
  {
    if n == 0 || at[p] >= size then 0 else 1 + InReach(at, size, p + 1, n - 1)
  }

  lemma {:induction false} ReachIs(at: seq<nat>, size: nat, p: nat, n: nat, m: nat)
    requires p + n <= |at| && m <= n && InMemory(at, size, p + m) && (m < n ==> at[p + m] >= size)
    ensures InReach(at, size, p, n) == m
    decreases n
  {
    if m > 0 {
      ReachIs(at, size, p + 1, n - 1, m - 1);
    }
  }

  lemma {:induction false} ReachAll(at: seq<nat>, size: nat, p: nat, n: nat)
    requires p + n <= |at| && InMemory(at, size, p)
    ensures InReach(at, size, p, n) == n <==> InMemory(at, size, p + n)
    decreases n
  {
    if n > 0 && at[p] < size {
      ReachAll(at, size, p + 1, n - 1);
    }
  }

  // ---- Reader ----

  /** A chain under the ceiling whose readable segments lie in guest memory. */
  predicate Readable(mem: seq<Byte>, chain: seq<Descriptor>) {
    InBounds(ReadableSegs(chain), |mem|) && Total(ReadableSegs(chain)) <= MAX_READABLE_BYTES
  }

  /** The readable segments are those of the descriptors before the first writable one. */
  lemma {:induction false} ReadableShape(chain: seq<Descriptor>)
    ensures var segs := ReadableSegs(chain);
      && |segs| <= |chain| && (|segs| < |chain| ==> chain[|segs|].writable)
      && forall i :: 0 <= i < |segs| ==> !chain[i].writable && segs[i] == Seg(chain[i].addr, chain[i].len)
  {
    if chain != [] && !chain[0].writable {
      ReadableShape(chain[1..]);
    }
  }

  /** Reading a run of memory goes on where the data so far ends. */
  lemma RunRead(at: seq<nat>, m: seq<Byte>, data: seq<Byte>, a: nat, n: nat)
    requires Run(at, |data|, a, n) && a + n <= |m| && Holds(at, m, data)
    ensures Holds(at, m, data + m[a..a + n])
  {
  }

  /** The first `i` segments are in memory, and `data` is what they hold. */
  ghost predicate ReadUpTo(segs: seq<Seg>, i: nat, mem: seq<Byte>, data: seq<Byte>) {
    && i <= |segs| && |data| == Before(segs, i) && Holds(Addresses(segs), mem, data)
    && forall k :: 0 <= k < i ==> segs[k].addr + segs[k].len <= |mem|
  }

  lemma NothingRead(segs: seq<Seg>, mem: seq<Byte>)
    ensures ReadUpTo(segs, 0, mem, [])
  {
  }

  lemma SegmentRead(segs: seq<Seg>, i: nat, mem: seq<Byte>, data: seq<Byte>)
    requires i < |segs| && ReadUpTo(segs, i, mem, data) && segs[i].addr + segs[i].len <= |mem|
    ensures ReadUpTo(segs, i + 1, mem, data + mem[segs[i].addr..segs[i].addr + segs[i].len])
  {
    PieceIsRun(segs, i, 0, segs[i].len);
    RunRead(Addresses(segs), mem, data, segs[i].addr, segs[i].len);
  }

  lemma ReadAll(mem: seq<Byte>, segs: seq<Seg>, data: seq<Byte>)
    requires ReadUpTo(segs, |segs|, mem, data)
    ensures InBounds(segs, |mem|) && data == Gather(mem, segs) && |data| == Total(segs)
  {
    BeforeAll(segs);
    GatherIsAddresses(mem, segs);
    SeqExt(data, Gather(mem, segs));
  }

  /** `Reader::new`: succeeds exactly on readable chains, and then holds precisely the bytes
      of the readable segments in chain order. */
  method NewReader(mem: seq<Byte>, chain: seq<Descriptor>) returns (r: Result<seq<Byte>>)
    ensures r.Ok? <==> Readable(mem, chain)
    ensures r.Ok? ==> r.value == Gather(mem, ReadableSegs(chain))
    ensures r.Err? && r.error.TooLong? ==> r.error.claimed > MAX_READABLE_BYTES
  {
    ghost var segs := ReadableSegs(chain);
    ReadableShape(chain);
    NothingRead(segs, mem);
    var data: seq<Byte>, total: nat, i: nat := [], 0, 0;
    while i < |chain| && !chain[i].writable
      invariant i <= |segs| && ReadUpTo(segs, i, mem, data) && |data| == total <= MAX_READABLE_BYTES
    {
      var d := chain[i];
      BeforeGrows(segs, i + 1);
      total := total + d.len;
      if total > MAX_READABLE_BYTES {
        return Err(TooLong(total));
      }
      if d.addr + d.len > |mem| {
        return Err(GuestMemory);
      }
      SegmentRead(segs, i, mem, data);
      data := data + mem[d.addr..d.addr + d.len];
      i := i + 1;
    }
    ReadAll(mem, segs, data);
    return Ok(data);
  }

  // ---- what a writer has done ----

  /** From the `n`th on they are what they were. */
  ghost predicate RestIs(at: seq<nat>, base: seq<Byte>, m: seq<Byte>, n: nat)
    requires |m| == |base|
  {
    forall k: nat :: n <= k < |at| && at[k] < |m| ==> m[at[k]] == base[at[k]]
  }

  /** Nothing outside the segments changed. */
  ghost predicate Framed(base: seq<Byte>, segs: seq<Seg>, m: seq<Byte>) {
    |m| == |base| && forall a :: 0 <= a < |m| && !Covers(segs, a) ==> m[a] == base[a]
  }

  /** Whatever the segments: no byte outside them has changed, the places for `data` are in memory,
      and in disjoint segments they hold it. */
  ghost predicate Stored(base: seq<Byte>, segs: seq<Seg>, m: seq<Byte>, data: seq<Byte>) {
    && Framed(base, segs, m)
    && InMemory(Addresses(segs), |m|, |data|)
    && (Disjoint(segs) ==> Holds(Addresses(segs), m, data))
  }

  /** And beyond it the segments are what they were. */
  ghost predicate Untouched(base: seq<Byte>, segs: seq<Seg>, m: seq<Byte>, n: nat) {
    |m| == |base| && RestIs(Addresses(segs), base, m, n)
  }

  /** Exactly the first `n` bytes of `buf` were stored after `data`, and what was clean is clean beyond. */
  ghost predicate StoredUpTo(
    base: seq<Byte>, segs: seq<Seg>, m: seq<Byte>, data: seq<Byte>, buf: seq<Byte>, n: nat, clean: bool)
    requires n <= |buf|
  {
    Stored(base, segs, m, data + buf[..n]) && (Disjoint(segs) && clean ==> Untouched(base, segs, m, |data| + n))
  }

  /** Or only up to the first byte that leaves memory. */
  ghost predicate StoredShort(
    base: seq<Byte>, segs: seq<Seg>, m: seq<Byte>, data: seq<Byte>, buf: seq<Byte>, n: nat, clean: bool)
    requires n <= |buf|
  {
    && Stored(base, segs, m, data) && |data| + n <= |Addresses(segs)|
    && var reach := InReach(Addresses(segs), |m|, |data|, n);
       reach < n && StoredUpTo(base, segs, m, data, buf, reach, clean)
  }

  /** A piece stored right after the data so far. */
  lemma PieceHeld(at: seq<nat>, m: seq<Byte>, data: seq<Byte>, a: nat, piece: seq<Byte>)
    requires Run(at, |data|, a, |piece|) && Alone(at, |data|, a, |piece|) && a + |piece| <= |m|
    requires Holds(at, m, data)
    ensures Holds(at, WriteAt(m, a, piece), data + piece)
  {
  }

  lemma PieceInMemory(at: seq<nat>, size: nat, p: nat, a: nat, n: nat)
    requires Run(at, p, a, n) && a + n <= size && InMemory(at, size, p)
    ensures InMemory(at, size, p + n)
  {
  }

  /** What comes after it is left alone. */
  lemma RestLeft(at: seq<nat>, base: seq<Byte>, m: seq<Byte>, p: nat, a: nat, piece: seq<Byte>)
    requires Alone(at, p, a, |piece|) && a + |piece| <= |m| == |base| && RestIs(at, base, m, p)
    ensures RestIs(at, base, WriteAt(m, a, piece), p + |piece|)
  {
  }

  lemma PieceFramed(base: seq<Byte>, segs: seq<Seg>, m: seq<Byte>, i: nat, a: nat, piece: seq<Byte>)
    requires Framed(base, segs, m) && i < |segs| && a + |piece| <= |m|
    requires segs[i].addr <= a && a + |piece| <= segs[i].addr + segs[i].len
    ensures Framed(base, segs, WriteAt(m, a, piece))
  {
  }

  // ---- Writer ----

  /** The writable part of guest memory and a position in it. */
  class Writer {
    var mem: seq<Byte>
    const segments: seq<Seg>
    var writePos: nat
    var bytesWritten: nat
    const totalLen: nat
    /** Memory when the writer was made, and everything it has accepted since. */
    ghost const base: seq<Byte>
    ghost var accepted: seq<Byte>

    /** Whatever the chain, and whether or not some write failed: no byte outside the segments has
        changed, what was accepted lives in memory, and in disjoint segments it is there. */
    ghost predicate Valid()
      reads this
    {
      && totalLen == Total(segments)
      && writePos == bytesWritten == |accepted| <= totalLen
      && Stored(base, segments, mem, accepted)
    }

    /** The segments' bytes beyond what was accepted are what they were. */
    ghost predicate Clean()
      reads this
    {
      Untouched(base, segments, mem, |accepted|)
    }

    constructor (guest: seq<Byte>, chain: seq<Descriptor>)
      ensures Valid() && Clean() && mem == base == guest && accepted == []
      ensures segments == WritableSegs(chain)
    {
      mem, base := guest, guest;
      segments := WritableSegs(chain);
      totalLen := Total(WritableSegs(chain));
      writePos, bytesWritten := 0, 0;
      accepted := [];
    }

    /** Bytes of `buf` that still fit. */
    function Fits(buf: seq<Byte>): nat
      requires writePos <= totalLen
      reads this
    {
      Min(|buf|, totalLen - writePos)
    }

    /** `Write::write`: takes as much of `buf` as still fits, and succeeds exactly when the places for
        it are in guest memory. Its position moves only then, but what comes before the first
        byte that leaves memory is stored in any case. */
    method Write(buf: seq<Byte>) returns (r: Result<nat>)
      requires Valid()
      modifies this`mem, this`writePos, this`bytesWritten, this`accepted
      ensures Valid()
      ensures r.Ok? <==> InMemory(Addresses(segments), |old(mem)|, old(writePos) + old(Fits(buf)))
      ensures r.Ok? ==> r.value == old(Fits(buf)) && accepted == old(accepted) + buf[..r.value]
      ensures r.Ok? && Disjoint(segments) && old(Clean()) ==> Clean()
      ensures r.Err? ==> accepted == old(accepted)
      ensures old(writePos) + old(Fits(buf)) <= |Addresses(segments)|
      ensures StoredUpTo(base, segments, mem, old(accepted), buf,
                         InReach(Addresses(segments), |old(mem)|, old(writePos), old(Fits(buf))), old(Clean()))
    {
      BeforeAll(segments);
      ghost var at, fits, clean := Addresses(segments), Fits(buf), Clean();
      ReachAll(at, |mem|, writePos, fits);
      assert accepted + buf[..0] == accepted;
      var stored := StoreAll(buf, fits, clean);
      if stored.None? {
        return Err(GuestMemory);
      }
      AllReached(base, segments, mem, accepted, buf, fits, clean);
      writePos, bytesWritten := writePos + stored.value, bytesWritten + stored.value;
      accepted := accepted + buf[..stored.value];
      return Ok(stored.value);
    }

    /** The loop over the segments, up to what fits or the first byte that leaves memory. */
    method StoreAll(buf: seq<Byte>, ghost fits: nat, ghost clean: bool) returns (r: Option<nat>)
      requires writePos == |accepted| && totalLen == Total(segments) && writePos <= totalLen && fits == Fits(buf)
      requires StoredUpTo(base, segments, mem, accepted, buf, 0, clean)
      modifies this`mem
      ensures |mem| == |old(mem)|
      ensures r.Some? ==> r.value == fits && StoredUpTo(base, segments, mem, accepted, buf, fits, clean)
      ensures r.None? ==> StoredShort(base, segments, mem, accepted, buf, fits, clean)
    {
      var bufPos: nat, skip: nat, i: nat := 0, writePos, 0;
      while i < |segments| && bufPos < |buf|
        invariant i <= |segments| && bufPos <= fits && |mem| == |old(mem)|
        invariant Before(segments, i) + skip == writePos + bufPos || bufPos == |buf|
        invariant StoredUpTo(base, segments, mem, accepted, buf, bufPos, clean)
        modifies `mem
        decreases |segments| - i
      {
        if skip >= segments[i].len {
          skip := skip - segments[i].len;
        } else {
          var n := StoreIn(i, skip, buf, bufPos, fits, clean);
          if n.None? {
            return None;
          }
          bufPos, skip := bufPos + n.value, 0;
        }
        i := i + 1;
      }
      BeforeAll(segments);
      return Some(bufPos);
    }

    /** Its turn for one segment: as much as is left of both. */
    method StoreIn(i: nat, skip: nat, buf: seq<Byte>, bufPos: nat, ghost fits: nat, ghost clean: bool)
      returns (r: Option<nat>)
      requires writePos == |accepted| && totalLen == Total(segments) && writePos <= totalLen && fits == Fits(buf)
      requires i < |segments| && skip < segments[i].len && bufPos < |buf| && bufPos <= fits
      requires Before(segments, i) + skip == writePos + bufPos
      requires StoredUpTo(base, segments, mem, accepted, buf, bufPos, clean)
      modifies this`mem
      ensures |mem| == |old(mem)|
      ensures r.Some? ==> r.value == Min(segments[i].len - skip, |buf| - bufPos) && bufPos + r.value <= fits
      ensures r.Some? ==> StoredUpTo(base, segments, mem, accepted, buf, bufPos + r.value, clean)
      ensures r.None? ==> StoredShort(base, segments, mem, accepted, buf, fits, clean)
    {
      BeforeGrows(segments, i + 1);
      var n := Min(segments[i].len - skip, |buf| - bufPos);
      if segments[i].addr + skip + n > |mem| {
        StorePart(i, skip, n, buf, bufPos, fits, clean);
        return None;
      }
      StoreNext(i, skip, n, buf, bufPos, clean);
      return Some(n);
    }

    /** The next piece of `buf`, into what is left of a segment. */
    method StoreNext(i: nat, skip: nat, n: nat, buf: seq<Byte>, bufPos: nat, ghost clean: bool)
      requires bufPos + n <= |buf| && StoredUpTo(base, segments, mem, accepted, buf, bufPos, clean)
      requires i < |segments| && skip + n <= segments[i].len && segments[i].addr + skip + n <= |mem|
      requires Before(segments, i) + skip == |accepted| + bufPos
      modifies `mem
      ensures |mem| == |old(mem)| && StoredUpTo(base, segments, mem, accepted, buf, bufPos + n, clean)
    {
      PieceFollows(accepted, buf, bufPos, n);
      StorePiece(i, skip, buf[bufPos..bufPos + n], accepted + buf[..bufPos]);
    }

    /** One piece, wholly in guest memory, right after the data so far. */
    method StorePiece(i: nat, skip: nat, piece: seq<Byte>, ghost soFar: seq<Byte>)
      requires Stored(base, segments, mem, soFar) && i < |segments| && skip + |piece| <= segments[i].len
      requires segments[i].addr + skip + |piece| <= |mem| && Before(segments, i) + skip == |soFar|
      modifies `mem
      ensures |mem| == |old(mem)| && Stored(base, segments, mem, soFar + piece)
      ensures Disjoint(segments) && Untouched(base, segments, old(mem), |soFar|) ==>
        Untouched(base, segments, mem, |soFar + piece|)
    {
      var a := segments[i].addr + skip;
      ghost var at := Addresses(segments);
      PieceIsRun(segments, i, skip, |piece|);
      PieceInMemory(at, |mem|, |soFar|, a, |piece|);
      PieceFramed(base, segments, mem, i, a, piece);
      if Disjoint(segments) {
        PieceIsAlone(segments, i, skip, |piece|);
        PieceHeld(at, mem, soFar, a, piece);
        if RestIs(at, base, mem, |soFar|) {
          RestLeft(at, base, mem, |soFar|, a, piece);
        }
      }
      mem := WriteAt(mem, a, piece);
    }

    /** As much of a piece as guest memory holds is stored before the failure shows. */
    method StorePart(i: nat, skip: nat, n: nat, buf: seq<Byte>, bufPos: nat, ghost fits: nat, ghost clean: bool)
      requires bufPos + n <= fits <= |buf| && StoredUpTo(base, segments, mem, accepted, buf, bufPos, clean)
      requires i < |segments| && 0 < n && skip + n <= segments[i].len && segments[i].addr + skip + n > |mem|
      requires Before(segments, i) + skip == |accepted| + bufPos && |accepted| + fits <= Total(segments)
      modifies `mem
      ensures |mem| == |old(mem)| && StoredShort(base, segments, mem, accepted, buf, fits, clean)
    {
      var a := segments[i].addr + skip;
      var room := if a < |mem| then |mem| - a else 0;
      Reached(segments, i, skip, n, |mem|, bufPos, room, |accepted|, fits);
      PieceFollows(accepted, buf, bufPos, room);
      if room > 0 {
        StorePiece(i, skip, buf[bufPos..bufPos + room], accepted + buf[..bufPos]);
      }
      StoredPrefix(base, segments, mem, accepted + buf[..bufPos + room], accepted);
    }
  }

  /** Where a write that leaves memory in this segment stops. */
  lemma Reached(segs: seq<Seg>, i: nat, skip: nat, n: nat, size: nat, done: nat, room: nat, p: nat, fits: nat)
    requires i < |segs| && 0 < n && skip + n <= segs[i].len && Before(segs, i) + skip == p + done
    requires segs[i].addr + skip + n > size && p + fits <= Total(segs) && done + n <= fits
    requires InMemory(Addresses(segs), size, p + done)
    requires room == if segs[i].addr + skip < size then size - (segs[i].addr + skip) else 0
    ensures InReach(Addresses(segs), size, p, fits) == done + room < fits
  {
    PieceIsRun(segs, i, skip, n);
    ReachIs(Addresses(segs), size, p, fits, done + room);
  }

  lemma AllReached(
    base: seq<Byte>, segs: seq<Seg>, m: seq<Byte>, data: seq<Byte>, buf: seq<Byte>, n: nat, clean: bool)
    requires n <= |buf| && StoredUpTo(base, segs, m, data, buf, n, clean)
    ensures |data| + n <= |Addresses(segs)| && InReach(Addresses(segs), |m|, |data|, n) == n
    ensures Stored(base, segs, m, data)
  {
    ReachIs(Addresses(segs), |m|, |data|, n, n);
    StoredPrefix(base, segs, m, data + buf[..n], data);
  }

  lemma StoredPrefix(base: seq<Byte>, segs: seq<Seg>, m: seq<Byte>, data: seq<Byte>, front: seq<Byte>)
    requires Stored(base, segs, m, data) && front <= data
    ensures Stored(base, segs, m, front)
  {
  }

  lemma PieceFollows(accepted: seq<Byte>, buf: seq<Byte>, at: nat, n: nat)
    requires at + n <= |buf|
    ensures (accepted + buf[..at]) + buf[at..at + n] == accepted + buf[..at + n]
  {}

  // ---- many writes ----

  /** Write every buffer in turn, until one fails. All succeed exactly when the places for their
      concatenation, cut at the total length, are in guest memory, and then that is what the
      segments hold, over what was there. Nothing else changes either way. */
  method WriteEach(w: Writer, bufs: seq<seq<Byte>>) returns (ok: bool)
    requires w.Valid() && w.Clean() && w.accepted == []
    modifies w
    ensures w.Valid()
    ensures ok <==> InMemory(Addresses(w.segments), |w.mem|, Min(|Concat(bufs)|, w.totalLen))
    ensures w.accepted <= Concat(bufs)
    ensures ok ==> w.accepted == Cut(Concat(bufs), w.totalLen)
    ensures ok && Disjoint(w.segments) ==> w.Clean()
  {
    var i := 0;
    while i < |bufs|
      invariant i <= |bufs| && w.Valid() && (Disjoint(w.segments) ==> w.Clean())
      invariant w.accepted == Cut(Concat(bufs[..i]), w.totalLen)
    {
      ok := WriteNext(w, bufs, i);
      if !ok {
        return;
      }
      i := i + 1;
    }
    assert bufs[..|bufs|] == bufs;
    return true;
  }

  function Cut(data: seq<Byte>, n: nat): seq<Byte> {
    data[..Min(|data|, n)]
  }

  method WriteNext(w: Writer, bufs: seq<seq<Byte>>, i: nat) returns (ok: bool)
    requires w.Valid() && (Disjoint(w.segments) ==> w.Clean()) && i < |bufs|
    requires w.accepted == Cut(Concat(bufs[..i]), w.totalLen)
    modifies w
    ensures w.Valid() && |w.mem| == |old(w.mem)|
    ensures ok ==> w.accepted == Cut(Concat(bufs[..i + 1]), w.totalLen) && (Disjoint(w.segments) ==> w.Clean())
    ensures !ok ==> w.accepted <= Concat(bufs)
    ensures !ok ==> !InMemory(Addresses(w.segments), |w.mem|, Min(|Concat(bufs)|, w.totalLen))
  {
    ConcatNext(bufs, i);
    ConcatGrows(bufs, i);
    ConcatGrows(bufs, i + 1);
    var r := w.Write(bufs[i]);
    ok := r.Ok?;
  }

  lemma ConcatNext(bufs: seq<seq<Byte>>, i: nat)
    requires i < |bufs|
    ensures Concat(bufs[..i + 1]) == Concat(bufs[..i]) + bufs[i]
  {
    assert bufs[..i + 1][..i] == bufs[..i];
  }

  lemma {:induction false} ConcatGrows(bufs: seq<seq<Byte>>, i: nat)
    requires i <= |bufs|
    ensures Concat(bufs[..i]) <= Concat(bufs)
    decreases |bufs| - i
  {
    if i == |bufs| {
      assert bufs[..i] == bufs;
    } else {
      ConcatNext(bufs, i);
      ConcatGrows(bufs, i + 1);
    }
  }

  /** Reading segments back as a readable chain. */
  function AsReadable(segs: seq<Seg>): (chain: seq<Descriptor>)
    ensures ReadableSegs(chain) == segs
  {
    if segs == [] then [] else
      var rest := AsReadable(segs[1..]);
      var chain := [Descriptor(segs[0].addr, segs[0].len, false)] + rest;
      assert chain[1..] == rest;
      chain
  }

  /** What a clean writer leaves in segments that are all in memory. */
  lemma LaidReads(base: seq<Byte>, m: seq<Byte>, segs: seq<Seg>, data: seq<Byte>)
    requires InBounds(segs, |m|) && |m| == |base|
    requires Holds(Addresses(segs), m, data) && RestIs(Addresses(segs), base, m, |data|)
    ensures Gather(m, segs) == Overlay(data, Gather(base, segs))
  {
    GatherIsAddresses(m, segs);
    GatherIsAddresses(base, segs);
    SeqExt(Gather(m, segs), Overlay(data, Gather(base, segs)));
  }

  lemma InBoundsInMemory(segs: seq<Seg>, mem: seq<Byte>, n: nat)
    requires InBounds(segs, |mem|) && n <= Total(segs)
    ensures InMemory(Addresses(segs), |mem|, n)
  {
    GatherIsAddresses(mem, segs);
  }

  /** Scatter, then gather: a `Reader` over the segments a `Writer` filled succeeds exactly when they
      are in guest memory and under its ceiling, and yields the concatenation of the buffers, cut
      at the writable length, over what was there. */
  method RoundTrip(guest: seq<Byte>, chain: seq<Descriptor>, bufs: seq<seq<Byte>>)
    returns (back: Result<seq<Byte>>)
    ensures back.Ok? <==>
      InBounds(WritableSegs(chain), |guest|) && Total(WritableSegs(chain)) <= MAX_READABLE_BYTES
    ensures back.Ok? && Disjoint(WritableSegs(chain)) ==>
      back.value == Overlay(Concat(bufs), Gather(guest, WritableSegs(chain)))
    ensures back.Ok? && Disjoint(WritableSegs(chain)) && |Concat(bufs)| >= |back.value| ==>
      back.value == Concat(bufs)[..|back.value|]
  {
    var w := new Writer(guest, chain);
    var ok := WriteEach(w, bufs);
    back := NewReader(w.mem, AsReadable(w.segments));
    if back.Ok? {
      InBoundsInMemory(w.segments, w.mem, Min(|Concat(bufs)|, w.totalLen));
      if Disjoint(w.segments) {
        LaidReads(guest, w.mem, w.segments, w.accepted);
        OverlayCut(Concat(bufs), Gather(guest, w.segments), w.accepted);
      }
    }
  }

  lemma OverlayCut(data: seq<Byte>, base: seq<Byte>, front: seq<Byte>)
    requires front == data[..Min(|data|, |base|)]
    ensures Overlay(front, base) == Overlay(data, base)
  {
    SeqExt(Overlay(front, base), Overlay(data, base));
  }
}
