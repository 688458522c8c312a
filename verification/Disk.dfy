/** The backing file's geometry: capacity, and what direct I/O asks of a transfer. */
module Disk {
  import opened Wrappers
  import opened Segments
  import opened Arith

  const SECTOR_SIZE: nat := 512

  /** Alignment direct I/O demands of buffer addresses, and of offsets and lengths. */
  datatype DioAlign = DioAlign(mem: nat, offset: nat)

  datatype Disk = Disk(readOnly: bool, sectors: nat, dio: Option<DioAlign>)

  /** The probe never reports a zero alignment for a file opened direct. */
  predicate Probed(d: Disk) {
    d.dio.Some? ==> d.dio.value.mem > 0 && d.dio.value.offset > 0
  }

  function LenBytes(d: Disk): nat {
    d.sectors * SECTOR_SIZE
  }

  function OffsetAlign(d: Disk): nat {
    if d.dio.Some? then d.dio.value.offset else 1
  }

  /** Can the transfer go straight to the guest's own pages, mapped at `hostBase`? */
  predicate DirectOk(d: Disk, hostBase: nat, offset: nat, iovs: seq<Seg>)
    requires Probed(d)
  {
    d.dio.None? ||
    (offset % d.dio.value.offset == 0 &&
     forall i :: 0 <= i < |iovs| ==>
       (hostBase + iovs[i].addr) % d.dio.value.mem == 0 && iovs[i].len % d.dio.value.offset == 0)
  }

  /** The aligned window a transfer of `len` bytes at `offset` is staged through. */
  datatype Shape = Shape(align: nat, head: nat, ioLen: nat)

  function BounceShape(d: Disk, offset: nat, len: nat): Shape
    requires Probed(d)
  {
    match d.dio
    case None => Shape(1, 0, len)
    case Some(a) =>
      var head := offset % a.offset;
      Shape(if a.mem >= a.offset then a.mem else a.offset, head, AlignUp(len + head, a.offset))
  }

  /** The window starts and ends on alignment boundaries and holds the request at `head`. A file without
      direct I/O needs none: any transfer may go direct. */
  lemma WindowHoldsRequest(d: Disk, offset: nat, len: nat)
    requires Probed(d)
    ensures var s, a := BounceShape(d, offset, len), OffsetAlign(d);
      && s.head <= offset && s.head + len <= s.ioLen
      && (offset - s.head) % a == 0 && s.ioLen % a == 0
      && (d.dio.None? ==> s.ioLen == len && forall base, iovs :: DirectOk(d, base, offset, iovs))
  {
    if d.dio.Some? {
      AlignUpIs(len + offset % OffsetAlign(d), OffsetAlign(d));
      AlignDownIs(offset, OffsetAlign(d));
    }
  }

  /** And it is the smallest: every aligned window [lo, hi) around the request contains it. */
  lemma WindowIsLeast(d: Disk, offset: nat, len: nat, lo: nat, hi: nat)
    requires Probed(d)
    requires var a := OffsetAlign(d); lo % a == 0 && hi % a == 0
    requires lo <= offset && offset + len <= hi
    ensures var s := BounceShape(d, offset, len);
      lo <= offset - s.head && offset - s.head + s.ioLen <= hi
  {
    if d.dio.Some? {
      var a := OffsetAlign(d);
      var start := AlignDown(offset, a);
      AlignDownIs(offset, a);
      assert lo > start ==> lo >= start + a by { if start < lo { MultiplesApart(start, lo, a); } }
      MultipleSum(hi, start, a);
      AlignUpLeast(len + offset % a, a, hi - start);
    }
  }
}
