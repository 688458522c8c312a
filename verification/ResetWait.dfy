/** The reset of the whole device against its workers, as interleaved steps. Each queue's worker
    passes under that queue's lock and publishes a count at the end of every pass; the thread
    handling the status write disables the queues one lock at a time and then polls those counts,
    one queue after another, while workers and the kernel carry on. */
module ResetWait {

  /** Where a worker is: outside the lock, at work under it (serving, or giving slots back
      because the queue is gone), or still under it with its count published. */
  datatype Phase = Idle | Working(serving: bool) | Published

  datatype Queue = Queue(
    enabled: bool, phase: Phase,
    held: nat,         // slots in use
    outstanding: nat,  // of those, jobs the kernel has not finished
    published: nat)    // the count the control plane reads

  /** Where the thread that handles register writes is. `Waiting(k)` has read zero from queues
      below `k` since it last started over. */
  datatype Control = Serving | Resetting(next: nat) | Waiting(next: nat) | Ended(sawZero: bool)

  datatype Device = Device(queues: seq<Queue>, control: Control)

  datatype WorkerStep = Lock(serving: bool) | Take | Resubmit | GiveBack | Publish | Unlock | KernelFinishes

  datatype ControlStep = SetEnabled(queue: nat, enabled: bool) | StartReset | Disable | Poll | GiveUp | Return

  datatype Action = ByWorker(queue: nat, step: WorkerStep) | ByControl(op: ControlStep)

  function Fresh(count: nat): Device {
    Device(seq(count, i => Queue(false, Idle, 0, 0, 0)), Serving)
  }

  // ---- steps ----

  ghost predicate WorkerMay(q: Queue, step: WorkerStep) {
    match step
    case Lock(serving) => q.phase.Idle? && (serving ==> q.enabled)
    case Take => q.phase == Working(true)
    case Resubmit => q.phase == Working(true) && q.outstanding < q.held
    case GiveBack => q.phase.Working? && q.outstanding < q.held
    case Publish => q.phase.Working?
    case Unlock => q.phase.Published?
    case KernelFinishes => q.outstanding > 0
  }

  function WorkerNext(q: Queue, step: WorkerStep): Queue
    requires WorkerMay(q, step)
  {
    match step
    case Lock(serving) => q.(phase := Working(serving))
    case Take => q.(held := q.held + 1, outstanding := q.outstanding + 1)
    case Resubmit => q.(outstanding := q.outstanding + 1)
    case GiveBack => q.(held := q.held - 1)
    case Publish => q.(phase := Published, published := q.held)
    case Unlock => q.(phase := Idle)
    case KernelFinishes => q.(outstanding := q.outstanding - 1)
  }

  /** The control plane holds the device lock from the status write to its return, so a queue can
      only be enabled while no reset is under way; it takes a queue's own lock to change it. */
  ghost predicate ControlMay(d: Device, op: ControlStep) {
    match op
    case SetEnabled(i, enabled) => d.control.Serving? && i < |d.queues| && d.queues[i].phase.Idle?
    case StartReset => d.control.Serving?
    case Disable => d.control.Resetting? && d.control.next < |d.queues| && d.queues[d.control.next].phase.Idle?
    case Poll => d.control.Waiting? || (d.control.Resetting? && d.control.next >= |d.queues|)
    case GiveUp => d.control.Waiting? && d.control.next < |d.queues| && d.queues[d.control.next].published > 0
    case Return => d.control.Ended?
  }

  function ControlNext(d: Device, op: ControlStep): Device
    requires ControlMay(d, op)
  {
    match op
    case SetEnabled(i, enabled) => d.(queues := d.queues[i := d.queues[i].(enabled := enabled)])
    case StartReset => d.(control := Resetting(0))
    case Disable =>
      var i := d.control.next;
      Device(d.queues[i := d.queues[i].(enabled := false)], Resetting(i + 1))
    case Poll =>
      if d.control.Resetting? then d.(control := Waiting(0))
      else if d.control.next >= |d.queues| then d.(control := Ended(true))
      else if d.queues[d.control.next].published > 0 then d.(control := Waiting(0))
      else d.(control := Waiting(d.control.next + 1))
    case GiveUp => d.(control := Ended(false))
    case Return => d.(control := Serving)
  }

  ghost predicate Step(d: Device, a: Action, next: Device) {
    match a
    case ByWorker(i, step) =>
      && i < |d.queues| && WorkerMay(d.queues[i], step)
      && next == d.(queues := d.queues[i := WorkerNext(d.queues[i], step)])
    case ByControl(op) => ControlMay(d, op) && next == ControlNext(d, op)
  }

  /** The states a device with `count` queues goes through under `acts`. */
  ghost predicate IsRun(count: nat, acts: seq<Action>, run: seq<Device>) {
    && |run| == |acts| + 1 && run[0] == Fresh(count)
    && forall k :: 0 <= k < |acts| ==> Step(run[k], acts[k], run[k + 1])
  }

  // ---- what every step keeps ----

  /** Outside a pass the count is exact; in a pass that only gives back it can only be high.
      Only a pass that serves can make it low. */
  ghost predicate Counted(q: Queue) {
    && q.outstanding <= q.held
    && (q.phase.Idle? || q.phase.Published? ==> q.published == q.held)
    && (q.phase == Working(false) ==> q.held <= q.published)
  }

  /** A queue the reset has been through: nothing can be added to it any more. */
  ghost predicate Closed(q: Queue) {
    !q.enabled && q.phase != Working(true)
  }

  /** How many queues are closed, and how many of those are known to hold nothing. */
  function ClosedBelow(d: Device): nat {
    match d.control
    case Serving => 0
    case Resetting(k) => k
    case Waiting(_) => |d.queues|
    case Ended(_) => |d.queues|
  }

  function DrainedBelow(d: Device): nat {
    match d.control
    case Serving => 0
    case Resetting(_) => 0
    case Waiting(k) => k
    case Ended(sawZero) => if sawZero then |d.queues| else 0
  }

  ghost predicate Inv(d: Device) {
    && (forall i :: 0 <= i < |d.queues| ==> Counted(d.queues[i]))
    && (forall i :: 0 <= i < |d.queues| && i < ClosedBelow(d) ==> Closed(d.queues[i]))
    && (forall i :: 0 <= i < |d.queues| && i < DrainedBelow(d) ==> d.queues[i].held == 0)
  }

  lemma WorkerKeeps(q: Queue, step: WorkerStep)
    requires Counted(q) && WorkerMay(q, step)
    ensures Counted(WorkerNext(q, step))
    ensures Closed(q) ==> Closed(WorkerNext(q, step)) && WorkerNext(q, step).held <= q.held
  {
  }

  lemma StepKeepsInv(d: Device, a: Action, next: Device)
    requires Inv(d) && Step(d, a, next)
    ensures Inv(next)
  {
    match a
    case ByWorker(i, step) => WorkerKeeps(d.queues[i], step);
    case ByControl(op) =>
  }

  lemma {:induction false} RunKeepsInv(count: nat, acts: seq<Action>, run: seq<Device>, k: nat)
    requires IsRun(count, acts, run) && k < |run|
    ensures Inv(run[k])
  {
    if k > 0 {
      RunKeepsInv(count, acts, run, k - 1);
      StepKeepsInv(run[k - 1], acts[k - 1], run[k]);
    }
  }

  // ---- what the driver may rely on ----

  /** When the wait ends because it saw zero everywhere, no queue has a job with the kernel, although
      the zeros were read at different times with workers running in between. */
  lemma ZeroMeansQuiet(count: nat, acts: seq<Action>, run: seq<Device>, k: nat, i: nat)
    requires IsRun(count, acts, run) && k < |run| && i < |run[k].queues|
    requires run[k].control == Ended(true)
    ensures run[k].queues[i].outstanding == 0 && run[k].queues[i].held == 0
  {
    RunKeepsInv(count, acts, run, k);
    assert Counted(run[k].queues[i]);
  }

  /** And it stays quiet: from the moment a queue is seen empty until the status write returns, the
      kernel holds nothing of it. */
  lemma SeenEmptyStaysEmpty(count: nat, acts: seq<Action>, run: seq<Device>, k: nat, i: nat)
    requires IsRun(count, acts, run) && k < |run|
    requires run[k].control.Waiting? && i < run[k].control.next && i < |run[k].queues|
    ensures run[k].queues[i].outstanding == 0
  {
    RunKeepsInv(count, acts, run, k);
    assert Counted(run[k].queues[i]);
  }

  /** Outside a pass the count never hides a job, resetting or not. */
  lemma PublishedCoversOutstanding(count: nat, acts: seq<Action>, run: seq<Device>, k: nat, i: nat)
    requires IsRun(count, acts, run) && k < |run| && i < |run[k].queues|
    requires run[k].queues[i].phase != Working(true)
    ensures run[k].queues[i].outstanding <= run[k].queues[i].published
  {
    RunKeepsInv(count, acts, run, k);
    assert Counted(run[k].queues[i]);
  }

  /** One more step at the end of a run. */
  lemma Extended(count: nat, acts: seq<Action>, run: seq<Device>, a: Action, next: Device)
    returns (moreActs: seq<Action>, more: seq<Device>)
    requires IsRun(count, acts, run) && Step(run[|acts|], a, next)
    ensures IsRun(count, moreActs, more) && more[|moreActs|] == next
  {
    moreActs, more := acts + [a], run + [next];
  }

  /** A wait that ends by timing out promises nothing: one queue, and a job that never finishes. */
  lemma TimeoutMayLeaveAJob() returns (acts: seq<Action>, run: seq<Device>)
    ensures IsRun(1, acts, run)
    ensures var last := run[|acts|];
      last.control == Ended(false) && |last.queues| == 1 && last.queues[0].outstanding == 1
  {
    var q := Queue(true, Idle, 0, 0, 0);
    var full := Queue(true, Idle, 1, 1, 1);
    acts, run := [], [Fresh(1)];
    assert Fresh(1).queues == [q.(enabled := false)];
    acts, run := Extended(1, acts, run, ByControl(SetEnabled(0, true)), Device([q], Serving));
    acts, run := Extended(1, acts, run, ByWorker(0, Lock(true)), Device([q.(phase := Working(true))], Serving));
    acts, run := Extended(1, acts, run, ByWorker(0, Take),
      Device([q.(phase := Working(true), held := 1, outstanding := 1)], Serving));
    acts, run := Extended(1, acts, run, ByWorker(0, Publish), Device([full.(phase := Published)], Serving));
    acts, run := Extended(1, acts, run, ByWorker(0, Unlock), Device([full], Serving));
    acts, run := Extended(1, acts, run, ByControl(StartReset), Device([full], Resetting(0)));
    acts, run := Extended(1, acts, run, ByControl(Disable), Device([full.(enabled := false)], Resetting(1)));
    acts, run := Extended(1, acts, run, ByControl(Poll), Device([full.(enabled := false)], Waiting(0)));
    acts, run := Extended(1, acts, run, ByControl(GiveUp), Device([full.(enabled := false)], Ended(false)));
  }
}
