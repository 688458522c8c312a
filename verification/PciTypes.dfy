/** What sits on the bus. */
module PciTypes {
  import opened Segments
  import opened Bars
  import opened BarAlloc
  import opened CapList

  datatype Bdf = Bdf(bus: nat, dev: nat, func: nat)

  /** A register whose writes only say "there is work": which BAR, where in it, and the descriptor the
      kernel signals instead of leaving the guest. */
  datatype Door = Door(bar: nat, offset: nat, fd: nat)

  /** What the bus asks of a device: its registers, its configuration space with the place of its
      MSI-X capability, and its doorbells. */
  datatype Shape = Shape(wants: seq<Want>, cfg: seq<Byte>, msixCap: nat, doors: seq<Door>)

  predicate Complete(d: Shape) {
    |d.wants| == SLOTS && |d.cfg| == SIZE && d.msixCap + 3 < SIZE
  }

  type Device = d: Shape | Complete(d)
    witness Shape(seq(SLOTS, i => Want(0, Mem32)), seq<Byte>(SIZE, i => 0), 0, [])

  datatype Entry = Entry(device: Device, bars: map<nat, Bar>)
}
