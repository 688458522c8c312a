# nesbox in Dafny

A model of the parts of the nesbox virtual machine monitor whose correctness is hardest to see by
reading them, and proofs about it. One module per component:

- **The block device's datapath.** `Vring` is the notification rule of split virtqueues; `Notify` is
  a worker and a driver trading hints, as interleaved steps (sections 2.7.7 to 2.7.10 of VIRTIO 1.2);
  `ChainWalk` collects descriptor chains; `Requests` parses them; `Disk` is alignment; `Transfer` is
  one request against a kernel that moves prefixes, fails and is retried; `Engine`, `Ledger`, `Slab`
  and `Worker` are the worker itself and its books; `History` is everything that happens to a queue,
  with the kernel and the guest; `ResetWait` is a device reset against all workers.
- **The PCI bus.** `Layout` chooses address windows; `Bars` is one base address register; `BarAlloc`
  places a device's registers; `BusIndex` is the flat region list; `Doorbells` are the notify
  registers the kernel answers; `Bus` is the bus as a value, `BusDoorbells` its doorbells over whole
  runs, and `PciBus` the bus as it runs; `CapList` is configuration space.
- **Smaller pieces.** `MemSlots` hands out KVM slot numbers, `Seccomp` compiles filters, `Budget`
  paces GPU submissions, `GpuDescriptors` scatters and gathers. `Segments` and `Arith` are the
  common ground.

Code that updates things in place is a class or a method with a loop, tied to a function on values;
the laws are lemmas about those functions over every input or every run. Memory is a sequence of
bytes, machine words are integers with their wrap-around written out, masks with a power of two are
division and remainder. The kernel, the clock and system calls are parameters that may answer
anything the lemma does not rule out. Threads are interleaved atomic steps under sequential
consistency, which is what the fences in the source are for.

Some properties one might expect do not hold of the code on all inputs. Each is shown by concrete
inputs that break it, together with the exact condition under which it does hold:

- A chain that puts plain descriptors before an indirect one is cut short, below the size of the
  ring (`ChainWalk.MixedLosesABuffer`, `ChainWalk.MixedWholeIff`).
- A read that names a page twice, or puts its status byte into its own data, is accepted, ends OK, and
  leaves the guest without some of the file's bytes (`Requests.SharedPageSpoilsARead`,
  `Requests.StatusSpoilsARead`); a read that ended OK reads as the file exactly when no two of its bytes
  ask for different values in one place (`Transfer.ReadRefinesFile`).
- A write of no bytes that the kernel refuses once is retried with one stray byte
  (`Transfer.EmptyWriteMayStray`); a write stays in its range exactly when it has a byte to write or is
  misaligned (`Transfer.WriteStaysInRangeIff`).
- A pass of exactly 65536 completions wakes nobody, and a run has one that leaves the driver asleep
  (`Vring.FullLapIsNeverSeen`, `Notify.WholeLapLosesTheInterrupt`, `Vring.WakesIff`).
- A doorbell whose registration the kernel refuses once is registered at the wrong place by the next
  move (`Doorbells.RefusedRegisterLosesTheOffset`), and one whose removal it refuses is answered at
  both addresses (`Doorbells.RefusedUnregisterLeavesItStale`). Doorbells follow exactly when both
  calls are granted for each, in one move (`Doorbells.MoveFollowsIff`) and over every run
  (`BusDoorbells.DoorbellsFollowIff`).
- A GPU guest whose debt was forgiven has had more than its share
  (`Budget.ForgivenDebtExceedsTheShare`, `Budget.StretchBalances`).
- A register smaller than 16 bytes is sized as 16 (`Bus.GuestSizesBar32`, `Bus.GuestSizesBar64`), and
  with 32 address bits or fewer a device can be given two registers at one address
  (`Bus.NarrowProcessorOverlaps`, `Layout.WindowsApartIff`).

Where the code and its comments disagree the model follows the code. `Writer::new` says it takes only
writable descriptors and takes everything from the first writable one on. `walk_chain` says the bound
is the table's own length and compares it with everything collected so far, from any table.

## Model

| member | source | states |
|---|---|---|
| Vring.NeedEventIsCyclicMembership | virtio-devices/src/common.rs:354-363 | `vring_need_event` is membership of the event in the cyclic interval from old to new, for all 16-bit values |
| Vring.NeedEventReach | virtio-devices/src/common.rs:354-363 | on true counters it looks back exactly (newer - older) mod 2^16 entries, whatever the length of the batch |
| Vring.ShortBatchWakesExactlyItsOwn | virtio-devices/src/common.rs:361-363 | for a batch under 65536 entries it fires exactly for a waiter whose entry is in the batch |
| Vring.WakesIff | virtio-devices/src/common.rs:361-363 | the exact condition for a batch of any length |
| Vring.FullLapIsNeverSeen | virtio-devices/src/common.rs:361-363 | a batch of 65536 fires for no event at all |
| Vring.SplitOnce | virtio-devices/src/common.rs:388-405 | cutting a short batch in two: one piece fires if and only if the whole does, never both |
| Vring.SplitBatchFiresOnce | virtio-devices/src/common.rs:388-405 | cutting a short batch into any number of pieces: exactly one fires when the whole does, none otherwise |
| Notify.HasAvailIsExact | virtio-devices/src/common.rs:259-264 | in every counted state the 16-bit comparison says precisely whether the driver has offered something not taken |
| Notify.ArmedHintMakesDriverKick | virtio-devices/src/blk/worker.rs:465-483 | a driver that reads an armed hint after publishing past it kicks, in event-index and in flag mode |
| Notify.RunKeepsKickInv | virtio-devices/src/blk/worker.rs:238-303 | the counters and the hint invariant hold after every step of every interleaving of worker, driver and resets |
| Notify.NoLostKick | virtio-devices/src/blk/worker.rs:396-425 | when the worker blocks on an enabled queue not wanting to drain, the ring is empty, a kick is pending, or the driver has yet to read a hint that makes it kick |
| Notify.NeverStranded | virtio-devices/src/blk/worker.rs:238-303 | a blocked worker with work offered always has a wake-up coming, from a kick or from a completion |
| Notify.RunKeepsIrqInv | virtio-devices/src/blk/worker.rs:279-301 | a sleeping driver with unseen entries has an interrupt pending or a pass that started before them, in every interleaving whose passes with event indices are under 65536 entries |
| Notify.DecideWakesSleeperIff | virtio-devices/src/common.rs:388-405 | at the end of a pass of any length, exactly which sleeping drivers are woken |
| Notify.NoLostInterrupt | virtio-devices/src/blk/worker.rs:279-301 | with flags always, and with event indices for passes under 65536 entries, no driver sleeps past unseen entries once the pass is over |
| Notify.WholeLapLosesTheInterrupt | virtio-devices/src/blk/worker.rs:279-301 | the bound is needed: from every initial state and on any ring size, a run has a pass of exactly 65536 entries after which the driver sleeps past one it has not seen and no interrupt is pending |
| ChainWalk.WalkChain | virtio-devices/src/common.rs:158-194 | the loop collects what the recursive walk does, for every memory, head and bound |
| ChainWalk.WalkIndirect | virtio-devices/src/common.rs:202-218 | an indirect table is walked from its start, cut to the smaller of its own size and the ring's |
| ChainWalk.CollectDescs | virtio-devices/src/common.rs:239-249 | over the bytes of guest memory, at most as many descriptors as the ring has |
| ChainWalk.Bounded | virtio-devices/src/common.rs:170-193 | whatever the driver wrote, including cycles and tables after plain descriptors, the walk ends within the ring size |
| ChainWalk.OneLevel | virtio-devices/src/common.rs:174-181 | everything collected is linked from the head, or from the start of one table named by the indirect descriptor reached; no table is entered from a table |
| ChainWalk.TrailIsAcyclic | virtio-devices/src/common.rs:158-194 | links that come to an end never visit an index twice |
| ChainWalk.TrailFits | virtio-devices/src/common.rs:158-194 | so they visit no more entries than the table has (pigeonhole) |
| ChainWalk.WholeChain | virtio-devices/src/common.rs:158-194 | a chain of plain descriptors that ends is returned whole and in order |
| ChainWalk.WholeTable | virtio-devices/src/common.rs:202-218 | so is the chain inside an indirect table that stands alone |
| ChainWalk.MixedChain | virtio-devices/src/common.rs:174-188 | exactly what is returned when plain descriptors precede the table |
| ChainWalk.MixedWholeIff | virtio-devices/src/common.rs:184-188 | it is whole if and only if the inner chain is one descriptor or both fit the inner table's size |
| ChainWalk.MixedLosesABuffer | virtio-devices/src/common.rs:184-188 | three buffers in a ring of 256, the last of them lost |
| Requests.CollectSegments | virtio-devices/src/blk/request.rs:122-140 | the loop yields the non-empty segments and their sum, or refuses exactly when one leaves guest memory or the sum passes the limit |
| Requests.ParseChain | virtio-devices/src/blk/request.rs:86-219 | the parse with its early returns is the decision on values; it is silent exactly on chains with nowhere to put a status |
| Requests.AcceptedIsSafe | virtio-devices/src/blk/request.rs:86-219 | an accepted request has positive segments inside guest memory that add up, a status byte the device may write, and a transfer inside the advertised capacity |
| Requests.TransferAcceptedIff | virtio-devices/src/blk/request.rs:142-163 | exactly when a read or a write is accepted, with wrap-around of sector times 512 excluded |
| Requests.StatusSpoilsARead | virtio-devices/src/blk/request.rs:86-163 | an accepted chain whose status byte lies in its data: on any file that does not begin with zero, a run ends OK and the guest has not read the sector |
| Requests.SharedPageSpoilsARead | virtio-devices/src/blk/request.rs:122-140 | an accepted chain that names one page twice: on any file whose first two sectors begin differently, a run ends OK and the guest has not read both |
| Disk.WindowHoldsRequest | virtio-devices/src/blk/disk.rs:209-236 | the staging window is aligned and contains the request, and a file without direct I/O needs none |
| Disk.WindowIsLeast | virtio-devices/src/blk/disk.rs:226-236 | and lies inside every other aligned window that does |
| Transfer.Advance | virtio-devices/src/blk/worker.rs:920-936 | advancing a scatter-gather list drops exactly the bytes moved |
| Transfer.ZeroFill | virtio-devices/src/blk/worker.rs:889-912 | zeroes everything from the bytes delivered to the end of the request and nothing else |
| Transfer.CopyOut | virtio-devices/src/blk/worker.rs:872-885 | lays the request's part of the window over the guest's segments |
| Transfer.ReadCompletes | virtio-devices/src/blk/worker.rs:735-852 | one completion of a read over any list keeps "everything so far is the file's", across short transfers, retries, staging and end of file |
| Transfer.ReadRefinesFile | virtio-devices/src/blk/worker.rs:735-916 | over any run of any accepted list, a read that ends OK has put the file's bytes, zero-extended, at their places, the last one where places coincide, and the status byte over them; so the segments read as the file's range if and only if no two bytes ask for different values in one place |
| Transfer.ApartIsCoherent | virtio-devices/src/blk/worker.rs:750-763 | which is always so for disjoint segments with the status byte outside them |
| Transfer.ReadTouchesOnlyItsPages | virtio-devices/src/blk/worker.rs:735-916 | over any run of a read, no step changes the file or a byte outside the request's segments, but for the status byte at the end |
| Transfer.KernelWriteStores | virtio-devices/src/blk/worker.rs:735-852 | one attempt at a write stores what it reports and stays inside the request's range |
| Transfer.WriteRefinesFile | virtio-devices/src/blk/worker.rs:563-689 | over any run, a non-empty write that ends OK has stored exactly what the segments held |
| Transfer.WriteTouchesOnlyItsRange | virtio-devices/src/blk/worker.rs:626-852 | whatever its outcome, no step of a write changes the file outside its range, or one byte for a write of none, nor guest memory but for the status byte at the end |
| Transfer.EmptyWriteMayStray | virtio-devices/src/blk/worker.rs:57-66 | an empty write at any aligned offset has a run that ends OK and changed a byte of the file |
| Transfer.EmptyWriteMisalignedIsRefused | virtio-devices/src/blk/worker.rs:626-689 | at a misaligned offset it has none: preparation refuses it |
| Transfer.WriteStaysInRangeIff | virtio-devices/src/blk/worker.rs:563-689 | every run of a parsed write that ends OK stays in its range if and only if it has a byte to write or its offset is misaligned |
| Segments.GatherScatter | virtio-devices/src/gpu/descriptor_utils.rs:240-276 | what was scattered over disjoint segments gathers back, over what was there |
| Segments.ScatterResumes | virtio-devices/src/blk/worker.rs:855-869 | over any list, continuing on the rest of it puts each new byte at its place, the last one winning where places coincide, and leaves every other address alone |
| Engine.UringEngine.Submit | virtio-devices/src/blk/engine.rs:217-256 | below the in-flight limit the submission ring is never full |
| Engine.UringEngine.Enter | virtio-devices/src/blk/engine.rs:198-215 | on entering the kernel the kick read is armed, and all that is out fits the completion ring |
| Engine.UringEngine.Run | virtio-devices/src/blk/engine.rs:264-309 | delivers each completed job once, in order, and its counters stay the size of what is outstanding |
| Engine.AnswersAreDistinct | virtio-devices/src/blk/engine.rs:264-309 | delivered tokens are distinct and were outstanding |
| Ledger.ExactlyOnce | virtio-devices/src/blk/worker.rs:735-869 | in balanced books each chain is in one slot, or in one used element, or released, and never in two of these |
| Slab.RunKeepsOk | virtio-devices/src/blk/worker.rs:263-303 | over every run, a token is in the duplicate-free free list if and only if its slot is empty, and slots, used ring, engine and books agree |
| Slab.EveryChainOnce | virtio-devices/src/blk/worker.rs:486-556 | over every run, each head taken is returned once, held by one slot that is not free, or was released at a step at which its queue was gone; and the three counts add up |
| Slab.ReleasedOnlyWhenGone | virtio-devices/src/blk/worker.rs:263-277 | over every run, a released chain was given back while its queue was disabled or under a later generation than its own |
| Slab.LiveQueueDropsNothing | virtio-devices/src/blk/worker.rs:742-748 | so a stretch in which the queue stays enabled and is not reset releases none of the chains taken in it |
| Slab.NoWriteAcrossReset | virtio-devices/src/blk/worker.rs:742-748 | over every run, every status byte, used element and payload write was made under the generation its request was taken in |
| Slab.NoResumeAcrossReset | virtio-devices/src/blk/worker.rs:742-748 | and over every run, a request that goes back to the engine, or is answered from its slot, was taken under the generation of that moment |
| Slab.RingNeverFull | virtio-devices/src/blk/worker.rs:384-425 | over every run, jobs in flight and in hand are below the depth, and there is room to resubmit whatever is in hand |
| Slab.ZeroMeansNothingOutstanding | virtio-devices/src/blk/worker.rs:308-312 | the published count is what the engine holds plus what is in hand, so zero means neither |
| Workers.Worker.Collect | virtio-devices/src/blk/worker.rs:243-262 | collected jobs move from the engine into hand, once each |
| Workers.Worker.GiveSlotBack | virtio-devices/src/blk/worker.rs:368-374 | the slot of a request whose queue is gone comes back without an answer, and its chain is booked as released |
| Workers.Worker.Complete | virtio-devices/src/blk/worker.rs:735-852 | a completion of another generation only gives its slot back; otherwise the request is resumed or answered as its transfer says |
| Workers.Worker.Resubmit | virtio-devices/src/blk/worker.rs:855-869 | what is left of a request always finds room in the engine |
| Workers.Worker.Issue | virtio-devices/src/blk/worker.rs:524-556 | a prepared request takes the last free slot, a refused one is answered on the spot |
| Workers.Worker.Start | virtio-devices/src/blk/worker.rs:486-521 | what becomes of a chain: malformed, rejected, identified, held or failed, with the bytes written for it |
| Workers.Worker.Drain | virtio-devices/src/blk/worker.rs:396-425 | the offers taken are the first so many, each started in turn; it stops short only without room, and still wants to drain exactly then |
| Workers.Worker.Publish | virtio-devices/src/blk/worker.rs:308-312 | the published count is exact and below the depth; zero means nothing is outstanding |
| Workers.Worker.Settle | virtio-devices/src/blk/worker.rs:263-293 | on an enabled queue every completion is handled, then offers are started; on one that is gone every completion is given back; in that order and nothing else |
| Workers.Worker.ReleaseAll | virtio-devices/src/blk/worker.rs:263-277 | the loop gives back each finished slot of a queue that is gone, in order, and writes nothing of its own |
| Workers.Worker.Pass | virtio-devices/src/blk/worker.rs:238-303 | a whole turn is exactly the events of collecting, handling or giving back, and starting, in order, with the books kept, the published count exact, and the wish to drain kept exactly while there is no room |
| History.EverySlotHasARun | virtio-devices/src/blk/worker.rs:238-303 | over every such sequence of events, with resets, other requests and the guest in between, each read or write held in a slot is in the middle of a run of its own: no request's handling disturbs another's |
| History.PublishedReadIsTrue | virtio-devices/src/blk/worker.rs:750-763 | when the worker publishes a used element of `total + 1` bytes for a read, the file's bytes are in its segments, and they read as the file's range if and only if the request is coherent |
| History.PublishedWriteIsTrue | virtio-devices/src/blk/worker.rs:750-763 | when the status byte of a write says OK, the file holds what the guest's segments held |
| History.AReadIsPublished | virtio-devices/src/blk/worker.rs:486-763 | and such a thing is published: a fresh worker offered a read of the first sector of any file ends with that used element |
| Workers.Worker.Reset | virtio-devices/src/blk/mod.rs:369-388 | a reset disables the queue and starts a new generation, and nothing else moves |
| Workers.Worker.SetEnabled | virtio-devices/src/blk/mod.rs:399 | switching a queue on or off keeps its generation and everything held |
| ResetWait.RunKeepsInv | virtio-devices/src/blk/mod.rs:325-388 | in every interleaving of workers, kernel and reset, a published count is low only in the middle of a pass that serves |
| ResetWait.ZeroMeansQuiet | virtio-devices/src/blk/mod.rs:325-338 | when the wait ends by seeing zero, no queue has a job with the kernel, though the zeros were read at different times |
| ResetWait.SeenEmptyStaysEmpty | virtio-devices/src/blk/mod.rs:325-338 | a queue once seen empty has nothing with the kernel until the status write returns |
| ResetWait.PublishedCoversOutstanding | virtio-devices/src/blk/worker.rs:308-312 | outside a serving pass the count never hides a job |
| ResetWait.TimeoutMayLeaveAJob | virtio-devices/src/blk/mod.rs:331-334 | a wait that times out promises none of this |
| Layout.Window64IsRoomy | vmm/src/layout.rs:64-74 | any power of two that fits the 64-bit window divides its end |
| Layout.Window64IsBlocks | vmm/src/layout.rs:64-74 | from 34 address bits up the window is whole 4 GiB blocks above 4 GiB |
| Layout.Window64IsRectangular | vmm/src/layout.rs:64-74 | on every processor, one half of an address in the window goes with the other half of any other |
| Layout.WindowsApartIff | vmm/src/layout.rs:64-74 | the two windows are apart exactly from 33 address bits up |
| Layout.RamAvoidsDevices | vmm/src/layout.rs:93-119 | all RAM is there, none in the device hole, and none in a window it fits below |
| Bars.WriteKeepsPlaced | pci/src/lib.rs:630-664 | any half-write keeps the register aligned and wholly inside its window, though only the base is checked |
| Bars.ReadsAddress | pci/src/lib.rs:561-577 | a register not being sized reads as its address with its type in the low four bits, across both halves |
| Bars.SizingDecodes | pci/src/lib.rs:558-585 | all ones written and read back decode to the size, or to 16 below that, and leave the register as it was |
| Bars.LowFirstArrivesIff | pci/src/lib.rs:609-664 | programming low half first arrives if and only if the mixture in between is in the window |
| Bars.HighFirstArrivesIff | pci/src/lib.rs:609-664 | and high half first if and only if the other mixture is |
| Bars.EitherOrderArrives | pci/src/lib.rs:609-664 | in a rectangular window either order programs any aligned address from any other, for registers of any size |
| Bars.ProgrammingArrives | pci/src/lib.rs:609-664 | hence on every processor |
| BarAlloc.AllocateBars | pci/src/lib.rs:377-417 | the loop places registers as the recursive allocation does, or fails with the same reason |
| BarAlloc.GrantIsSound | pci/src/lib.rs:389-414 | what is granted is aligned, inside its window, above the marks and apart |
| BarAlloc.GrantIsComplete | pci/src/lib.rs:379-417 | every register asked for is granted with its size and kind, or is the high half of the one before |
| BusIndex.AddIndexed | pci/src/lib.rs:433-448 | adding a device keeps the region list exactly the registers, each once |
| BusIndex.MoveIndexed | pci/src/lib.rs:667-675 | so does moving one |
| BusIndex.HighWaterMark | pci/src/lib.rs:359-375 | the loop finds the top of what is mapped from inside a window |
| BusIndex.NewBarIsApart | pci/src/lib.rs:356-414 | a register above the marks overlaps no region, whatever moved before |
| BusIndex.FindRegion | pci/src/lib.rs:740-751 | the dispatch loop finds the first region that covers an address |
| BusIndex.DispatchIsExact | pci/src/lib.rs:740-784 | an access reaches a register that is there now, and is dropped only where there is none |
| Doorbells.MoveKeepsStep | pci/src/lib.rs:293-329 | wherever its doorbells were declared, a move whose calls are granted takes every doorbell along and leaves nothing behind |
| Doorbells.RegisteredInStep | pci/src/lib.rs:244-287 | registering a new device's doorbells, some of them refused, keeps record and kernel the same |
| Doorbells.RecordsFollowIff | pci/src/lib.rs:293-329 | after a move every record is at its BAR's base plus its offset if and only if every new registration was granted |
| Doorbells.KernelFollowsIff | pci/src/lib.rs:293-329 | and the kernel then has exactly those if and only if every old one was given up |
| Doorbells.MoveFollowsIff | pci/src/lib.rs:293-329 | doorbells follow a moved BAR if and only if the kernel grants both calls for each of that BAR's doorbells |
| Doorbells.RefusedRegisterLosesTheOffset | pci/src/lib.rs:302-327 | one refused registration and the next move registers it at the start of the BAR |
| Doorbells.RefusedUnregisterLeavesItStale | pci/src/lib.rs:306-327 | one refused removal and the kernel answers at both addresses, while the record is right |
| Bus.AddKeepsOk | pci/src/lib.rs:349-452 | adding a device, or failing to, keeps the bus invariant |
| Bus.ConfigWriteKeepsOk | pci/src/lib.rs:596-685 | so does any configuration write |
| Bus.ConfigReadKeepsOk | pci/src/lib.rs:524-594 | and any read, which may use up a probe |
| Bus.GuestReadsHalf | pci/src/lib.rs:558-585 | a four-byte read of either register of a BAR gives that half, whichever register owns it |
| Bus.GuestProgramsBar | pci/src/lib.rs:596-685 | two configuration writes, in either order, program a 64-bit BAR with any aligned address in its window and leave the bus in order |
| Bus.GuestSizesBar32 | pci/src/lib.rs:558-625 | all ones written to a 32-bit BAR and read back give its size, if and only if that is at least 16, and leave the bus as it was |
| Bus.GuestSizesBar64 | pci/src/lib.rs:558-625 | so do four accesses to the two halves of a 64-bit BAR |
| Bus.BusInvariant | pci/src/lib.rs:349-685 | after any sequence of additions and guest accesses on any processor, the region list is exactly the registers at their present addresses, all aligned and inside their windows |
| Bus.NewDeviceIsApart | pci/src/lib.rs:356-414 | a new device's registers overlap nothing mapped at the time, nor each other, where the windows are apart |
| Bus.NarrowProcessorOverlaps | pci/src/lib.rs:389-414 | with 32 address bits or fewer a device with a register of each kind gets both at one address |
| BusDoorbells.StepFollowsIff | pci/src/lib.rs:596-676 | a step of the bus leaves every doorbell at its place, and the kernel with exactly those, if and only if the calls it makes for them are granted |
| BusDoorbells.DoorbellsFollowIff | pci/src/lib.rs:244-329 | over every run on every processor, doorbells are in place all along if and only if every call made while a BAR moves is granted |
| Bus.CamReadsAsEcam | pci/src/lib.rs:489-519 | reading through the ports and through the window gives the same bytes and the same bus but for CONFIG_ADDRESS, probes included |
| Bus.CamWritesAsEcam | pci/src/lib.rs:458-486 | and so does writing |
| PciBus.Machine.Add | pci/src/lib.rs:349-452 | the device is at the next address with its registers placed, or nothing changed |
| PciBus.Machine.RegisterDoorbells | pci/src/lib.rs:244-287 | the loop registers the doorbells whose BAR exists and that the kernel grants |
| PciBus.Machine.MoveDoorbells | pci/src/lib.rs:293-329 | the loop takes each doorbell of the BAR from the kernel and gives it back at its new address, recording it only then |
| PciBus.Machine.Rebase | pci/src/lib.rs:667-675 | the loop moves exactly the regions of one register |
| PciBus.Machine.ConfigRead | pci/src/lib.rs:524-594 | the bytes of bridge, register half, unused register or device, and the probe it used up |
| PciBus.Machine.ConfigWrite | pci/src/lib.rs:596-685 | a probe, a move of register, region and doorbells together, a device write, or nothing |
| PciBus.Machine.PioWriteTo | pci/src/lib.rs:458-486 | selects a register or writes the selected one, and keeps the invariant |
| PciBus.Machine.PioReadFrom | pci/src/lib.rs:489-519 | reads either port, ones where there is no device |
| PciBus.Machine.EcamWriteTo | pci/src/lib.rs:730-738 | writes below 0x100 reach configuration space, the rest is ignored |
| PciBus.Machine.EcamReadFrom | pci/src/lib.rs:753-772 | reads past 0x100 are zero, absent devices are ones |
| PciBus.Machine.Dispatch | pci/src/lib.rs:740-784 | names the register at an address and the offset in it, or says there is none |
| CapList.BuiltHolds | pci/src/config.rs:106-136 | after any accepted calls the blocks are in order, on dwords, apart, inside 0x40..0x100, linked, with identifiers and payloads intact |
| CapList.AcceptedIffFits | pci/src/config.rs:106-118 | calls are accepted exactly when every block fits, placed by the lengths of those before it |
| CapList.WalkVisitsAll | pci/src/config.rs:120-135 | a driver following the links visits exactly the added capabilities in order and stops (section 6.7 of PCI Local Bus 3.0) |
| CapList.GuestCannotBreakTheList | virtio-devices/src/common.rs:488-500 | any sequence of guest writes leaves that walk, every other capability, and all of MSI-X but its two writable bits as they were |
| CapList.PciConfig.AddCap | pci/src/config.rs:106-136 | patches the bytes in place to the list with one more block |
| CapList.PciConfig.AddMsixCap | pci/src/config.rs:198-204 | adds the MSI-X block with its control word and offsets |
| CapList.WriteMsixControl | virtio-devices/src/common.rs:488-500 | the loop over byte lanes changes only the two writable bits |
| MemSlots.RunKeepsOk | vmm/src/memslot.rs:93-244 | over any run with failures anywhere, every number taken has one owner, and what is registered is what somebody has |
| MemSlots.NoSharedNumbers | vmm/src/memslot.rs:209-244 | live regions never share a number, and a number waiting to be reused is not live |
| MemSlots.ConsumptionIsBounded | vmm/src/memslot.rs:93-244 | numbers consumed are at most window attempts, plus the peak of mappings held or attempted, plus failed removals |
| MemSlots.LostForGood | vmm/src/memslot.rs:232-244 | a number lost to a failed removal is never used again, and its old region stays |
| MemSlots.PickIsNew | vmm/src/memslot.rs:215-218 | a number about to be registered is registered for nothing else |
| MemSlots.HostAddr | vmm/src/memslot.rs:163-173 | a host address exactly for ranges wholly inside the window, at the same distance from the reservation's start, and the range there is inside the reservation |
| MemSlots.MemorySlots.Open | vmm/src/memslot.rs:93-142 | one window at most; a failed registration gives its number to the free list |
| MemSlots.MemorySlots.Map | vmm/src/memslot.rs:209-230 | a recycled or new number, not in use, registered at the address; or given back |
| MemSlots.MemorySlots.Unmap | vmm/src/memslot.rs:232-244 | the number is free again if the removal worked, and lost if not |
| Seccomp.Build | vmm/src/seccomp.rs:137-189 | the loop emits the program instruction by instruction, with no jump longer than one |
| Seccomp.AllowsExactlyTheList | vmm/src/seccomp.rs:137-189 | for lists of any length the program halts inside itself and allows exactly x86-64 calls to listed numbers |
| Seccomp.StackIsIntersection | vmm/src/seccomp.rs:546-573 | any stack of such filters decides as one filter for what the lists share |
| Seccomp.BaselineWithVcpu | vmm/src/seccomp.rs:546-573 | and so do the two that are installed, in either mode |
| Budget.Limit | virtio-devices/src/gpu/budget.rs:102-105 | any request for a limit becomes one between 1 and 100, and 100 is none |
| Budget.GpuBudget.PaceCall | virtio-devices/src/gpu/budget.rs:119-167 | the loop sleeps in exactly the turns that find a debt, for the time computed, and leaves the bank as those turns do |
| Budget.GpuBudget.Read | virtio-devices/src/gpu/budget.rs:134-157 | reads the counters when due and settles with the bank |
| Budget.BankStaysInBounds | virtio-devices/src/gpu/budget.rs:58-61 | whatever the limits and counters do, the bank stays between full debt and burst |
| Budget.StretchBalances | virtio-devices/src/gpu/budget.rs:145-154 | over any stretch, charged work is what the clock earned plus what the bank gave up, less what spilled, plus what was forgiven, exactly |
| Budget.StretchEarns | virtio-devices/src/gpu/budget.rs:145-154 | at one limit the clock earned the rate times the time between the first read and the last |
| Budget.ShareIsBounded | virtio-devices/src/gpu/budget.rs:119-167 | so it is at most rate times elapsed plus a burst plus a full debt plus what was forgiven |
| Budget.ForgivenDebtExceedsTheShare | virtio-devices/src/gpu/budget.rs:149-150 | one turn after the first read of a new budget, forgiving exceeds the bound |
| Budget.HeldGuestIsLetThrough | virtio-devices/src/gpu/budget.rs:155-165 | a held guest that uses nothing more is let through within 5000 / percent + 2 turns, however late the wake-ups |
| GpuDescriptors.NewReader | virtio-devices/src/gpu/descriptor_utils.rs:110-137 | succeeds exactly on readable chains within the ceiling, with their bytes in order |
| GpuDescriptors.Writer.Write | virtio-devices/src/gpu/descriptor_utils.rs:240-276 | for any chain: succeeds exactly when the places for what still fits are in guest memory; failing or not, exactly the bytes before the first that leaves memory are stored, at their places in disjoint segments, the rest of those is as before, and nothing outside the segments changes |
| GpuDescriptors.WriteEach | virtio-devices/src/gpu/descriptor_utils.rs:240-276 | a sequence of writes on any chain succeeds exactly when the places for their concatenation, cut at the writable length, are in guest memory, and then stores it; otherwise what it accepted is a prefix |
| GpuDescriptors.RoundTrip | virtio-devices/src/gpu/descriptor_utils.rs:110-276 | reading the same segments succeeds exactly when they are in guest memory and under the ceiling, and in disjoint segments gives the concatenation back, over what was there |

## Left out

- Calls into KVM, io_uring, vhost, mmap and eventfd: only what they answer is modelled.
- Weak memory: the fenced points are taken as sequentially consistent.
- Two vCPUs writing configuration space at once: a write is one step, as the code releases one lock before the other.
- The synchronous engine, and the polling loop before a worker blocks: no state of their own to keep.
- Rings whose size is not a power of two, a used ring at address zero, and a driver that rewrites the used index.
- A driver that switches a queue off without a reset, in `Notify`; the worker's books do cover it.
- Where the rings lie in memory: the used ring is a log of elements, and the two event words are fields.
- Holes in guest memory: it is one sequence of bytes, except in the chain walk, which takes any readable or unreadable entry.
- Allocation failure of a staging buffer, and a request that is neither read nor written failing in the kernel for a reason of its own.
- BAR sizes of 2^63 and above, where the source's own addition would overflow.
- The registrar being set after devices were added: it is there from the start or not at all.
- What a device does with an access to its BAR: dispatch ends at naming the register.
- The header fields other than the capability pointer, and the virtio and PCI Express payloads: they are bytes given to the builder.
- Two threads inside the slot allocator at once, and slot numbers past 2^32.
- Rounding of floating point in the GPU budget: reals stand for it.
- The contents of the seccomp lists, and the length limit when a filter is installed.
- Other device shells, boot, ACPI, CPUID, the jailer, the probe and the control socket.
- GpuDescriptors.RoundTrip: says what comes back for disjoint segments only, since overlapping segments overwrite each other.
- Transfer.ReadRefinesFile: asks for nobody else touching the request's pages or file range meanwhile, and takes the kernel to fill segments in list order.
- History.EverySlotHasARun: asks the guest for the same, and for requests in flight that do not overlap each other where one of them changes something.
- Transfer.WriteRefinesFile: asks for at least one byte; the empty write is the exception shown beside it.
- Notify.NoLostInterrupt: asks for passes under 65536 entries with event indices, beyond which the rule itself fails.
- Notify.NeverStranded: liveness of the kernel and the driver themselves is not modelled.
- BusDoorbells.DoorbellsFollowIff: asks for doorbells declared inside their registers; `Doorbells.MoveKeepsStep`, the one direction that a mover relies on, does not.
- Bus.NewDeviceIsApart: asks for the windows to be apart, which is the case from 33 address bits up.
- Budget.HeldGuestIsLetThrough: bounds turns, not time, because a wake-up may come arbitrarily late.
