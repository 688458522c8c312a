/** Turning a descriptor chain into a request: header, data segments, status byte. */
module Requests {
  import opened Segments
  import opened Wrappers
  import opened Disk
  import opened Transfer

  const BLK_T_IN: nat := 0
  const BLK_T_OUT: nat := 1
  const BLK_T_FLUSH: nat := 4
  const BLK_T_GET_ID: nat := 8
  const BLK_T_DISCARD: nat := 11
  const BLK_T_WRITE_ZEROES: nat := 13

  /** One `virtio_blk_discard_write_zeroes` segment. */
  const DISCARD_SEG_SIZE: nat := 16

  /** Most bytes one request may ask for: 128 MiB. */
  const MAX_REQUEST_BYTES: nat := 0x800_0000

  const U64: nat := 0x1_0000_0000_0000_0000

  /** A descriptor as the chain walk reports it. */
  datatype Desc = Desc(addr: nat, len: nat, writable: bool)

  datatype Parsing =
    | Accepted(req: Request)
    | Malformed                            // nowhere to put a status
    | Rejected(addr: nat, status: nat)     // report `status` at `addr`

  /** A little-endian number of `n` bytes in guest memory. */
  function ReadLE(mem: seq<Byte>, addr: nat, n: nat): Option<nat> {
    if addr + n > |mem| then None else Some(FromLE(mem[addr..addr + n]))
  }

  function FromLE(bytes: seq<Byte>): nat {
    if bytes == [] then 0 else bytes[0] + 256 * FromLE(bytes[1..])
  }

  // ---- data segments ----

  /** The descriptors that carry data at all. */
  function NonEmpty(data: seq<Desc>): seq<Seg> {
    if data == [] then []
    else if data[|data| - 1].len == 0 then NonEmpty(data[..|data| - 1])
    else NonEmpty(data[..|data| - 1]) + [Seg(data[|data| - 1].addr, data[|data| - 1].len)]
  }

  /** Every data byte lies in guest memory and there are not too many of them. */
  predicate Acceptable(data: seq<Desc>, memSize: nat) {
    InBounds(NonEmpty(data), memSize) && Total(NonEmpty(data)) <= MAX_REQUEST_BYTES
  }

  lemma {:induction false} TotalSnoc(segs: seq<Seg>, s: Seg)
    ensures Total(segs + [s]) == Total(segs) + s.len
  {
    if segs == [] {
      assert segs + [s] == [s];
    } else {
      assert (segs + [s])[1..] == segs[1..] + [s];
      TotalSnoc(segs[1..], s);
    }
  }

  /** A chain that is unacceptable up to some point stays so. */
  lemma {:induction false} UnacceptablePrefix(data: seq<Desc>, i: nat, memSize: nat)
    requires i <= |data| && !Acceptable(data[..i], memSize)
    ensures !Acceptable(data, memSize)
    decreases |data|
  {
    if i < |data| {
      var front := data[..|data| - 1];
      assert front[..i] == data[..i];
      UnacceptablePrefix(front, i, memSize);
      var last := data[|data| - 1];
      if last.len != 0 {
        var s := Seg(last.addr, last.len);
        TotalSnoc(NonEmpty(front), s);
        if !InBounds(NonEmpty(front), memSize) {
          var j :| 0 <= j < |NonEmpty(front)| && NonEmpty(front)[j].addr + NonEmpty(front)[j].len > memSize;
          assert NonEmpty(data)[j] == NonEmpty(front)[j];
        }
      }
    } else {
      assert data[..i] == data;
    }
  }

  /** The accumulation loop of `parse`: succeeds exactly on acceptable data, with the
      non-empty segments in order and their total. */
  method CollectSegments(memSize: nat, data: seq<Desc>) returns (r: Option<(seq<Seg>, nat)>)
    ensures r.Some? <==> Acceptable(data, memSize)
    ensures r.Some? ==> r.value == (NonEmpty(data), Total(NonEmpty(data)))
  {
    var segments: seq<Seg>, total, i := [], 0, 0;
    while i < |data|
      invariant 0 <= i <= |data|
      invariant segments == NonEmpty(data[..i]) && total == Total(segments)
      invariant Acceptable(data[..i], memSize)
    {
      var d := data[i];
      assert data[..i + 1][..i] == data[..i];
      if d.len != 0 {
        var s := Seg(d.addr, d.len);
        TotalSnoc(segments, s);
        if d.addr + d.len > memSize {
          assert NonEmpty(data[..i + 1])[|segments|] == s;
          UnacceptablePrefix(data, i + 1, memSize);
          return None;
        }
        total := total + d.len;
        if total > MAX_REQUEST_BYTES {
          UnacceptablePrefix(data, i + 1, memSize);
          return None;
        }
        segments := segments + [s];
      }
      i := i + 1;
    }
    assert data[..|data|] == data;
    return Some((segments, total));
  }

  // ---- the whole chain ----

  predicate InCapacity(d: Disk, offset: nat, n: nat) {
    offset + n <= LenBytes(d)
  }

  /** `checked_mul` and `saturating_add` on 64-bit numbers, then the comparison. */
  predicate SectorsFit(d: Disk, sector: nat, n: nat) {
    && sector * SECTOR_SIZE < U64
    && (if sector * SECTOR_SIZE + n < U64 then sector * SECTOR_SIZE + n else U64 - 1) <= LenBytes(d)
  }

  /** What `parse` makes of a chain. */
  function Parse(mem: seq<Byte>, d: Disk, head: nat, descs: seq<Desc>): Parsing {
    if |descs| < 2 then Malformed
    else
      var status := descs[|descs| - 1];
      if status.len < 1 || !status.writable then Malformed
      else
        var error := Rejected(status.addr, BLK_S_IOERR);
        if descs[0].len < 16 then error
        else
          var kind, sector := ReadLE(mem, descs[0].addr, 4), ReadLE(mem, descs[0].addr + 8, 8);
          if kind.None? || sector.None? then error
          else
            var data := descs[1..|descs| - 1];
            if !Acceptable(data, |mem|) then error
            else Decide(mem, d, head, kind.value, sector.value, NonEmpty(data), status.addr)
  }

  /** The decision on a chain whose shape is sound. */
  function Decide(
    mem: seq<Byte>, d: Disk, head: nat, kind: nat, sector: nat, segs: seq<Seg>, statusAddr: nat): Parsing {
    var total := Total(segs);
    var error := Rejected(statusAddr, BLK_S_IOERR);
    if kind == BLK_T_IN || kind == BLK_T_OUT then
      if kind == BLK_T_OUT && d.readOnly then error
      else if !SectorsFit(d, sector, total) then error
      else
        var op := if kind == BLK_T_OUT then Write else Read;
        Accepted(Request(head, op, sector * SECTOR_SIZE, segs, total, statusAddr))
    else if kind == BLK_T_FLUSH then Accepted(Request(head, Flush, 0, segs, total, statusAddr))
    else if kind == BLK_T_GET_ID then Accepted(Request(head, GetId, 0, segs, total, statusAddr))
    else if kind == BLK_T_DISCARD || kind == BLK_T_WRITE_ZEROES then
      if d.readOnly || |segs| != 1 || segs[0].len < DISCARD_SEG_SIZE then error
      else
        var start := ReadLE(mem, segs[0].addr, 8);
        var count := ReadLE(mem, segs[0].addr + 8, 4);
        var flags := ReadLE(mem, segs[0].addr + 12, 4);
        if start.None? || count.None? || flags.None? then error
        else if !SectorsFit(d, start.value, count.value * SECTOR_SIZE) then error
        else if kind == BLK_T_DISCARD then
          if flags.value != 0 then Rejected(statusAddr, BLK_S_UNSUPP)
          else
            var op := Discard(start.value, count.value);
            Accepted(Request(head, op, start.value * SECTOR_SIZE, segs, total, statusAddr))
        else
          Accepted(Request(head, WriteZeroes(start.value, count.value, flags.value % 2 == 1),
                           start.value * SECTOR_SIZE, segs, total, statusAddr))
    else Rejected(statusAddr, BLK_S_UNSUPP)
  }

  /** `parse`. A refusal is silent only when the chain offers no writable status byte at its end. */
  method ParseChain(mem: seq<Byte>, d: Disk, head: nat, descs: seq<Desc>) returns (r: Parsing)
    ensures r == Parse(mem, d, head, descs)
    ensures r.Malformed? <==> |descs| < 2 || descs[|descs| - 1].len < 1 || !descs[|descs| - 1].writable
    ensures r.Rejected? ==> r.addr == descs[|descs| - 1].addr
  {
    if |descs| < 2 {
      return Malformed;
    }
    var status := descs[|descs| - 1];
    if status.len < 1 || !status.writable {
      return Malformed;
    }
    var error := Rejected(status.addr, BLK_S_IOERR);
    if descs[0].len < 16 {
      return error;
    }
    var kind, sector := ReadLE(mem, descs[0].addr, 4), ReadLE(mem, descs[0].addr + 8, 8);
    if kind.None? || sector.None? {
      return error;
    }
    var collected := CollectSegments(|mem|, descs[1..|descs| - 1]);
    if collected.None? {
      return error;
    }
    return Decide(mem, d, head, kind.value, sector.value, collected.value.0, status.addr);
  }

  lemma {:induction false} NonEmptyArePositive(data: seq<Desc>)
    ensures forall i :: 0 <= i < |NonEmpty(data)| ==> NonEmpty(data)[i].len > 0
  {
    if data != [] {
      NonEmptyArePositive(data[..|data| - 1]);
    }
  }

  /** The disk's size in bytes is a 64-bit number. */
  predicate Sized(d: Disk) {
    LenBytes(d) < U64 - 1
  }

  /** Everything the rest of the device relies on: what is accepted lies wholly in guest
      memory and wholly inside the advertised capacity, never writes a read-only disk, and
      reports where the driver offered a writable byte. */
  lemma AcceptedIsSafe(mem: seq<Byte>, d: Disk, head: nat, descs: seq<Desc>)
    requires Parse(mem, d, head, descs).Accepted? && Sized(d)
    ensures var req := Parse(mem, d, head, descs).req;
      && Parsed(req, |mem|) && req.head == head
      && req.total <= MAX_REQUEST_BYTES && (forall i :: 0 <= i < |req.segments| ==> req.segments[i].len > 0)
      && (exists i :: 0 <= i < |descs| && descs[i].writable && descs[i].len > 0 && descs[i].addr == req.statusAddr)
      && (req.op.Moves() ==> InCapacity(d, req.offset, req.total))
      && (req.op.Discard? ==> InCapacity(d, req.op.sector * SECTOR_SIZE, req.op.sectors * SECTOR_SIZE))
      && (req.op.WriteZeroes? ==> InCapacity(d, req.op.sector * SECTOR_SIZE, req.op.sectors * SECTOR_SIZE))
      && (d.readOnly ==> req.op.Read? || req.op.Flush? || req.op.GetId?)
  {
    var data := descs[1..|descs| - 1];
    NonEmptyArePositive(data);
    assert descs[|descs| - 1].writable;
  }

  /** And nothing safe is refused: a read or write is accepted if and only if its chain has a
      readable header and a writable status byte, its data is acceptable, the disk takes the
      direction, and the byte range is inside the capacity. */
  lemma TransferAcceptedIff(mem: seq<Byte>, d: Disk, head: nat, descs: seq<Desc>, kind: nat, sector: nat)
    requires Sized(d) && (kind == BLK_T_IN || kind == BLK_T_OUT)
    requires |descs| >= 2 && ReadLE(mem, descs[0].addr, 4) == Some(kind)
    requires ReadLE(mem, descs[0].addr + 8, 8) == Some(sector)
    ensures Parse(mem, d, head, descs).Accepted? <==>
      && descs[|descs| - 1].writable && descs[|descs| - 1].len >= 1 && descs[0].len >= 16
      && Acceptable(descs[1..|descs| - 1], |mem|)
      && (kind == BLK_T_OUT ==> !d.readOnly)
      && InCapacity(d, sector * SECTOR_SIZE, Total(NonEmpty(descs[1..|descs| - 1])))
  {}

  // ---- accepted reads that ask for two bytes at one address ----

  lemma {:induction false} FromZeroes(bytes: seq<Byte>)
    requires forall i :: 0 <= i < |bytes| ==> bytes[i] == 0
    ensures FromLE(bytes) == 0
  {
    if bytes != [] {
      FromZeroes(bytes[1..]);
    }
  }

  /** In blank memory a header at 0 asks to read from sector 0. */
  lemma BlankRead(d: Disk, head: nat, size: nat, descs: seq<Desc>, data: seq<Desc>, segs: seq<Seg>)
    requires |descs| >= 2 && descs[0] == Desc(0, 16, false) && data == descs[1..|descs| - 1]
    requires descs[|descs| - 1].writable && descs[|descs| - 1].len >= 1 && 16 <= size
    requires segs == NonEmpty(data) && Acceptable(data, size) && Total(segs) <= LenBytes(d) < U64
    ensures Parse(Zeroes(size), d, head, descs)
         == Accepted(Request(head, Read, 0, segs, Total(segs), descs[|descs| - 1].addr))
  {
    FromZeroes(Zeroes(size)[0..4]);
    FromZeroes(Zeroes(size)[8..16]);
  }

  /** An accepted read that is not coherent with the file has a run that ends OK without the guest having
      the file's bytes. */
  lemma IncoherentReadFails(d: Disk, hostBase: nat, req: Request, mem: seq<Byte>, file: seq<Byte>)
    returns (phases: seq<Phase>, labels: seq<Label>)
    requires d.dio.None? && Parsed(req, |mem|) && req.op.Read? && 0 < req.total && req.offset + req.total <= |file|
    requires !Coherent(req, FileRange(file, req.offset, req.total))
    ensures IsRun(d, hostBase, req, [], phases, labels) && phases[0].w == World(mem, file)
    ensures |labels| == 1 && phases[1].Finished? && phases[1].status == BLK_S_OK && |phases[1].w.mem| == |mem|
    ensures Gather(phases[1].w.mem, req.segments) != FileRange(file, req.offset, req.total)
  {
    phases, labels := OneShotRead(d, hostBase, req, mem, file);
    ReadRefinesFile(d, hostBase, req, [], phases, labels, 1);
  }

  lemma ClashAt(req: Request, want: seq<Byte>, k: nat)
    requires |want| == Total(req.segments) && k < |want| && AddrAt(req.segments, k) == req.statusAddr
    ensures want[k] != BLK_S_OK ==> !Coherent(req, want)
  {
    assert Addresses(req.segments)[k] == req.statusAddr;
  }

  lemma ClashBetween(req: Request, want: seq<Byte>, j: nat, k: nat)
    requires |want| == Total(req.segments) && j < k < |want| && AddrAt(req.segments, j) == AddrAt(req.segments, k)
    ensures want[j] != want[k] ==> !Coherent(req, want)
  {
    assert Addresses(req.segments)[j] == Addresses(req.segments)[k];
  }

  lemma OneData(x: Desc)
    requires x.len > 0
    ensures NonEmpty([x]) == [Seg(x.addr, x.len)] && Total([Seg(x.addr, x.len)]) == x.len
  {
    assert [x][..0] == [];
    assert [Seg(x.addr, x.len)][1..] == [];
  }

  /** A status byte inside the data: the read of one sector into 16..528, its status at 16. */
  const STATUS_IN_DATA: seq<Desc> := [Desc(0, 16, false), Desc(16, 512, true), Desc(16, 1, true)]

  /** It is accepted, ends OK, and leaves the guest without the sector's first byte, unless that is 0. */
  lemma StatusSpoilsARead(d: Disk, hostBase: nat, head: nat, file: seq<Byte>)
    returns (req: Request, phases: seq<Phase>, labels: seq<Label>)
    requires d.dio.None? && 512 <= LenBytes(d) < U64 && 512 <= |file| && file[0] != 0
    ensures Parse(Zeroes(1024), d, head, STATUS_IN_DATA) == Accepted(req) && req.segments == [Seg(16, 512)]
    ensures IsRun(d, hostBase, req, [], phases, labels) && phases[0].w == World(Zeroes(1024), file)
    ensures |labels| == 1 && phases[1].Finished? && phases[1].status == BLK_S_OK && |phases[1].w.mem| == 1024
    ensures Gather(phases[1].w.mem, req.segments) != FileRange(file, 0, 512)
  {
    var data, segs := [Desc(16, 512, true)], [Seg(16, 512)];
    OneData(data[0]);
    assert STATUS_IN_DATA[1..2] == data;
    BlankRead(d, head, 1024, STATUS_IN_DATA, data, segs);
    req := Request(head, Read, 0, segs, 512, 16);
    ClashAt(req, FileRange(file, 0, 512), 0);
    phases, labels := IncoherentReadFails(d, hostBase, req, Zeroes(1024), file);
  }

  lemma TwoData(x: Desc)
    requires x.len > 0
    ensures NonEmpty([x, x]) == [Seg(x.addr, x.len), Seg(x.addr, x.len)]
    ensures Total([Seg(x.addr, x.len), Seg(x.addr, x.len)]) == 2 * x.len
  {
    OneData(x);
    assert [x, x][..1] == [x];
    TotalSnoc([Seg(x.addr, x.len)], Seg(x.addr, x.len));
    assert [Seg(x.addr, x.len)] + [Seg(x.addr, x.len)] == [Seg(x.addr, x.len), Seg(x.addr, x.len)];
  }

  /** One page named twice: two sectors into the same 512 bytes. */
  const PAGE_TWICE: seq<Desc> :=
    [Desc(0, 16, false), Desc(16, 512, true), Desc(16, 512, true), Desc(1023, 1, true)]

  /** Accepted as well, and it cannot hold both, unless they begin with the same byte. */
  lemma SharedPageSpoilsARead(d: Disk, hostBase: nat, head: nat, file: seq<Byte>)
    returns (req: Request, phases: seq<Phase>, labels: seq<Label>)
    requires d.dio.None? && 1024 <= LenBytes(d) < U64 && 1024 <= |file| && file[0] != file[512]
    ensures Parse(Zeroes(1024), d, head, PAGE_TWICE) == Accepted(req) && req.segments == [Seg(16, 512), Seg(16, 512)]
    ensures IsRun(d, hostBase, req, [], phases, labels) && phases[0].w == World(Zeroes(1024), file)
    ensures |labels| == 1 && phases[1].Finished? && phases[1].status == BLK_S_OK && |phases[1].w.mem| == 1024
    ensures Gather(phases[1].w.mem, req.segments) != FileRange(file, 0, 1024)
  {
    var x := Desc(16, 512, true);
    var segs := [Seg(16, 512), Seg(16, 512)];
    TwoData(x);
    assert PAGE_TWICE[1..3] == [x, x];
    BlankRead(d, head, 1024, PAGE_TWICE, [x, x], segs);
    req := Request(head, Read, 0, segs, 1024, 1023);
    assert segs[1..] == [Seg(16, 512)];
    ClashBetween(req, FileRange(file, 0, 1024), 0, 512);
    phases, labels := IncoherentReadFails(d, hostBase, req, Zeroes(1024), file);
  }
}
