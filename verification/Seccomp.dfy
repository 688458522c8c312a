/** The allowlist compiler for seccomp filters, checked against an interpreter for the instructions
    it emits and against the kernel's rule for several filters on one thread. */
module Seccomp {
  const U32: int := 0x1_0000_0000

  const LD_W_ABS: nat := 0x20
  const JMP_JEQ_K: nat := 0x15
  const RET_K: nat := 0x06

  const DATA_NR: nat := 0
  const DATA_ARCH: nat := 4

  const ARCH_X86_64: nat := 0xC000_003E

  const RET_ALLOW: nat := 0x7fff_0000
  const RET_TRAP: nat := 0x0003_0000
  const RET_KILL_PROCESS: nat := 0x8000_0000

  datatype Insn = Insn(code: nat, jt: nat, jf: nat, k: nat)

  /** The part of `seccomp_data` the filters look at. */
  datatype Call = Call(nr: nat, arch: nat)

  /** What a program does with a call. `Fault` is running off the end, or anything the kernel
      would not have accepted. */
  datatype Verdict = Return(action: nat) | Fault

  function Run(p: seq<Insn>, pc: nat, acc: nat, call: Call): Verdict
    decreases |p| - pc
  {
    if pc >= |p| then Fault
    else
      var i := p[pc];
      if i.code == RET_K then Return(i.k)
      else if i.code == LD_W_ABS && i.k == DATA_NR then Run(p, pc + 1, call.nr, call)
      else if i.code == LD_W_ABS && i.k == DATA_ARCH then Run(p, pc + 1, call.arch, call)
      else if i.code == JMP_JEQ_K then Run(p, pc + 1 + (if acc == i.k then i.jt else i.jf), acc, call)
      else Fault
  }

  // ---- the compiler ----

  /** Instruction `i` of the filter: four to check the architecture and load the number, two for
      each entry, and the verdict on everything else. */
  function InsnAt(allowed: seq<int>, mismatch: nat, i: nat): Insn
    requires i < 2 * |allowed| + 5
  {
    if i == 0 then Insn(LD_W_ABS, 0, 0, DATA_ARCH)
    else if i == 1 then Insn(JMP_JEQ_K, 1, 0, ARCH_X86_64)
    else if i == 3 then Insn(LD_W_ABS, 0, 0, DATA_NR)
    else if i == 2 || i == 2 * |allowed| + 4 then Insn(RET_K, 0, 0, mismatch)
    else if i % 2 == 0 then Insn(JMP_JEQ_K, 0, 1, allowed[(i - 4) / 2] % U32)
    else Insn(RET_K, 0, 0, RET_ALLOW)
  }

  function Program(allowed: seq<int>, mismatch: nat): seq<Insn> {
    seq(2 * |allowed| + 5, i requires 0 <= i < 2 * |allowed| + 5 => InsnAt(allowed, mismatch, i))
  }

  /** `build`. No jump is longer than one instruction, however long the list. */
  method Build(allowed: seq<int>, mismatch: nat) returns (p: seq<Insn>)
    ensures p == Program(allowed, mismatch)
    ensures forall i :: 0 <= i < |p| ==> p[i].jt <= 1 && p[i].jf <= 1
  {
    p := [Insn(LD_W_ABS, 0, 0, DATA_ARCH), Insn(JMP_JEQ_K, 1, 0, ARCH_X86_64), Insn(RET_K, 0, 0, mismatch)];
    p := p + [Insn(LD_W_ABS, 0, 0, DATA_NR)];
    var n := 0;
    while n < |allowed|
      invariant 0 <= n <= |allowed| && |p| == 2 * n + 4
      invariant forall i :: 0 <= i < |p| ==> p[i] == InsnAt(allowed, mismatch, i)
    {
      p := p + [Insn(JMP_JEQ_K, 0, 1, allowed[n] % U32)] + [Insn(RET_K, 0, 0, RET_ALLOW)];
      n := n + 1;
    }
    p := p + [Insn(RET_K, 0, 0, mismatch)];
  }

  // ---- what the program decides ----

  /** The list holds this number, as the 32 bits the kernel compares. */
  ghost predicate Listed(allowed: seq<int>, nr: nat) {
    exists i :: 0 <= i < |allowed| && allowed[i] % U32 == nr
  }

  ghost predicate ListedFrom(allowed: seq<int>, n: nat, nr: nat) {
    exists i :: n <= i < |allowed| && allowed[i] % U32 == nr
  }

  /** From the comparison with entry `n` on, what is left of the list decides. */
  lemma {:induction false} RestDecides(allowed: seq<int>, mismatch: nat, call: Call, n: nat)
    requires n <= |allowed|
    ensures Run(Program(allowed, mismatch), 4 + 2 * n, call.nr, call)
         == Return(if ListedFrom(allowed, n, call.nr) then RET_ALLOW else mismatch)
    decreases |allowed| - n
  {
    var p := Program(allowed, mismatch);
    assert p[4 + 2 * n] == InsnAt(allowed, mismatch, 4 + 2 * n);
    if n < |allowed| {
      RestDecides(allowed, mismatch, call, n + 1);
      assert p[5 + 2 * n] == InsnAt(allowed, mismatch, 5 + 2 * n) == Insn(RET_K, 0, 0, RET_ALLOW);
      assert ListedFrom(allowed, n, call.nr) <==> allowed[n] % U32 == call.nr || ListedFrom(allowed, n + 1, call.nr);
    }
  }

  /** For lists of any length the program halts inside itself, and allows exactly x86-64 calls to
      listed numbers. */
  lemma AllowsExactlyTheList(allowed: seq<int>, mismatch: nat, call: Call)
    ensures Run(Program(allowed, mismatch), 0, 0, call)
         == Return(if call.arch == ARCH_X86_64 && Listed(allowed, call.nr) then RET_ALLOW else mismatch)
  {
    var p := Program(allowed, mismatch);
    RestDecides(allowed, mismatch, call, 0);
    assert ListedFrom(allowed, 0, call.nr) == Listed(allowed, call.nr);
    assert Run(p, 3, call.arch, call) == Run(p, 4, call.nr, call);
    assert Run(p, 1, call.arch, call) == Run(p, if call.arch == ARCH_X86_64 then 3 else 2, call.arch, call);
  }

  // ---- several filters ----

  /** The action part of a verdict as the kernel ranks it: a signed word, lower is stricter. */
  function Rank(action: nat): int {
    var full := action / 0x1_0000 % 0x1_0000 * 0x1_0000;
    if full < 0x8000_0000 then full else full - U32
  }

  /** Every filter on the thread is run, and the strictest action stands. */
  function Stacked(filters: seq<seq<Insn>>, n: nat, call: Call): Verdict
    requires n <= |filters|
  {
    if n == 0 then Return(RET_ALLOW)
    else
      var rest := Stacked(filters, n - 1, call);
      var own := Run(filters[n - 1], 0, 0, call);
      if own.Fault? || rest.Fault? then Fault
      else if Rank(own.action) < Rank(rest.action) then own
      else rest
  }

  /** The number is on each of the first `n` lists. */
  ghost predicate OnAll(lists: seq<seq<int>>, n: nat, nr: nat)
    requires n <= |lists|
  {
    forall i :: 0 <= i < n ==> Listed(lists[i], nr)
  }

  function Programs(lists: seq<seq<int>>, mismatch: nat): seq<seq<Insn>> {
    seq(|lists|, i requires 0 <= i < |lists| => Program(lists[i], mismatch))
  }

  lemma {:induction false} StackDecides(lists: seq<seq<int>>, mismatch: nat, n: nat, call: Call)
    requires n <= |lists| && Rank(mismatch) < Rank(RET_ALLOW)
    ensures Stacked(Programs(lists, mismatch), n, call)
         == Return(if n == 0 || (call.arch == ARCH_X86_64 && OnAll(lists, n, call.nr)) then RET_ALLOW else mismatch)
  {
    if n > 0 {
      StackDecides(lists, mismatch, n - 1, call);
      AllowsExactlyTheList(lists[n - 1], mismatch, call);
      assert Programs(lists, mismatch)[n - 1] == Program(lists[n - 1], mismatch);
    }
  }

  /** Filters only ever tighten: a stack of them is one filter for what all the lists share. */
  lemma StackIsIntersection(lists: seq<seq<int>>, common: seq<int>, mismatch: nat, call: Call)
    requires lists != [] && Rank(mismatch) < Rank(RET_ALLOW)
    requires forall nr :: Listed(common, nr) <==> OnAll(lists, |lists|, nr)
    ensures Stacked(Programs(lists, mismatch), |lists|, call) == Run(Program(common, mismatch), 0, 0, call)
  {
    StackDecides(lists, mismatch, |lists|, call);
    AllowsExactlyTheList(common, mismatch, call);
  }

  /** What two lists share, in the order of the first. */
  function Shared(a: seq<int>, b: seq<int>, n: nat): seq<int>
    requires n <= |a|
  {
    if n == 0 then []
    else if exists j :: 0 <= j < |b| && b[j] % U32 == a[n - 1] % U32 then Shared(a, b, n - 1) + [a[n - 1]]
    else Shared(a, b, n - 1)
  }

  lemma {:induction false} SharedIsBoth(a: seq<int>, b: seq<int>, n: nat, nr: nat)
    requires n <= |a|
    ensures Listed(Shared(a, b, n), nr) <==> (exists i :: 0 <= i < n && a[i] % U32 == nr) && Listed(b, nr)
  {
    if n > 0 {
      SharedIsBoth(a, b, n - 1, nr);
      var before := Shared(a, b, n - 1);
      var x := a[n - 1];
      assert Listed(before + [x], nr) <==> Listed(before, nr) || x % U32 == nr by {
        assert (before + [x])[|before|] == x;
        assert Listed(before, nr) ==> Listed(before + [x], nr) by {
          if Listed(before, nr) {
            var i :| 0 <= i < |before| && before[i] % U32 == nr;
            assert (before + [x])[i] == before[i];
          }
        }
      }
    }
  }

  /** The baseline with the vCPU filter on top, in either mode that installs them. */
  lemma BaselineWithVcpu(baseline: seq<int>, vcpu: seq<int>, mismatch: nat, call: Call)
    requires mismatch == RET_TRAP || mismatch == RET_KILL_PROCESS
    ensures Stacked(Programs([baseline, vcpu], mismatch), 2, call)
         == Run(Program(Shared(baseline, vcpu, |baseline|), mismatch), 0, 0, call)
  {
    var lists := [baseline, vcpu];
    forall nr ensures Listed(Shared(baseline, vcpu, |baseline|), nr) <==> OnAll(lists, 2, nr) {
      SharedIsBoth(baseline, vcpu, |baseline|, nr);
      assert OnAll(lists, 2, nr) <==> Listed(lists[0], nr) && Listed(lists[1], nr);
    }
    StackIsIntersection(lists, Shared(baseline, vcpu, |baseline|), mismatch, call);
  }
}
