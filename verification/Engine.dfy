/** The io_uring engine's bookkeeping: how many jobs the kernel has, what waits in the
    submission ring, and the eventfd read that carries queue kicks. */
module Engine {

  /** What the completion ring delivers: the kick read, or a job. */
  datatype Cqe = KickDone | JobDone(token: nat, result: int)

  datatype Done = Done(token: nat, result: int)

  /** The jobs among some completions, in order. */
  function Jobs(cqes: seq<Cqe>): seq<Done> {
    if cqes == [] then []
    else
      var front, last := Jobs(cqes[..|cqes| - 1]), cqes[|cqes| - 1];
      if last.KickDone? then front else front + [Done(last.token, last.result)]
  }

  function Tokens(done: seq<Done>): set<nat> {
    if done == [] then {} else Tokens(done[..|done| - 1]) + {done[|done| - 1].token}
  }

  /** Each completion answers something that was outstanding, and answers it once. */
  predicate Answers(cqes: seq<Cqe>, outstanding: set<nat>) {
    cqes == [] ||
    var front, last := cqes[..|cqes| - 1], cqes[|cqes| - 1];
    && Answers(front, outstanding)
    && match last
       case KickDone => KickDone !in front
       case JobDone(token, _) => token in outstanding && token !in Tokens(Jobs(front))
  }

  /** No token twice. */
  predicate Distinct(done: seq<Done>) {
    done == [] ||
    (Distinct(done[..|done| - 1]) && done[|done| - 1].token !in Tokens(done[..|done| - 1]))
  }

  class UringEngine {
    const depth: nat
    var inFlight: nat
    var unsubmitted: nat
    var kickArmed: bool
    /** Tokens handed over and not yet answered. */
    ghost var outstanding: set<nat>

    ghost predicate Valid()
      reads this
    {
      && depth >= 2
      && inFlight == |outstanding|
      && unsubmitted <= inFlight
      && inFlight < depth
    }

    constructor (ringDepth: nat)
      requires ringDepth >= 2
      ensures Valid() && depth == ringDepth && outstanding == {} && !kickArmed && unsubmitted == 0
    {
      depth := ringDepth;
      inFlight, unsubmitted, kickArmed := 0, 0, false;
      outstanding := {};
    }

    /** Jobs that may still be submitted; one entry is kept for the kick read. */
    function Room(): nat
      reads this
    {
      if inFlight + 1 <= depth then depth - inFlight - 1 else 0
    }

    /** `push`: refused only when the submission ring is full. Below the in-flight limit it
        never is. */
    method Submit(token: nat) returns (ok: bool)
      requires Valid() && token !in outstanding
      modifies this
      ensures ok <==> old(unsubmitted) < depth
      ensures ok ==> outstanding == old(outstanding) + {token} && inFlight == old(inFlight) + 1
      ensures !ok ==> outstanding == old(outstanding) && inFlight == old(inFlight)
      ensures kickArmed == old(kickArmed)
      ensures old(inFlight) + 1 < depth ==> ok && Valid()
    {
      if unsubmitted >= depth {
        return false;
      }
      inFlight, unsubmitted := inFlight + 1, unsubmitted + 1;
      outstanding := outstanding + {token};
      return true;
    }

    /** Entering the kernel: the kick read is armed, everything queued is handed over, and
        what the kernel then holds fits the completion ring (twice the depth). */
    method Enter()
      requires Valid()
      modifies this
      ensures Valid() && outstanding == old(outstanding) && inFlight == old(inFlight)
      ensures kickArmed && unsubmitted == 0
      ensures inFlight + 1 <= depth < 2 * depth
    {
      if !kickArmed && unsubmitted < depth {
        kickArmed := true;
        unsubmitted := unsubmitted + 1;
      }
      unsubmitted := 0;
    }

    /** The accounting for one completion. */
    method Reap(c: Cqe)
      requires Valid() && unsubmitted == 0 && (c.JobDone? ==> c.token in outstanding)
      modifies this`inFlight, this`kickArmed, this`outstanding
      ensures Valid() && kickArmed == (old(kickArmed) && !c.KickDone?)
      ensures outstanding == if c.JobDone? then old(outstanding) - {c.token} else old(outstanding)
    {
      if c.KickDone? {
        kickArmed := false;
      } else {
        inFlight := inFlight - 1;
        outstanding := outstanding - {c.token};
      }
    }

    /** `run`: arm, submit, and collect what the kernel chose to complete. */
    method Run(cqes: seq<Cqe>) returns (done: seq<Done>, kicked: bool)
      requires Valid() && Answers(cqes, outstanding)
      modifies this
      ensures Valid() && unsubmitted == 0
      ensures done == Jobs(cqes)
      ensures kicked <==> KickDone in cqes
      ensures outstanding == old(outstanding) - Tokens(Jobs(cqes))
      ensures kickArmed <==> !kicked
    {
      Enter();
      done, kicked := [], false;
      ghost var start := outstanding;
      var i := 0;
      while i < |cqes|
        invariant 0 <= i <= |cqes|
        invariant Reaped(cqes, i, start, done, kicked, outstanding)
        invariant kickArmed <==> !kicked
        invariant Valid() && unsubmitted == 0
      {
        var c := cqes[i];
        ReapedNext(cqes, i, start, done, kicked, outstanding);
        Reap(c);
        if c.KickDone? {
          kicked := true;
        } else {
          done := done + [Done(c.token, c.result)];
        }
        i := i + 1;
      }
      ReapedAll(cqes, start, done, kicked, outstanding);
    }
  }

  lemma ReapedAll(cqes: seq<Cqe>, start: set<nat>, done: seq<Done>, kicked: bool, left: set<nat>)
    requires Reaped(cqes, |cqes|, start, done, kicked, left)
    ensures done == Jobs(cqes) && (kicked <==> KickDone in cqes) && left == start - Tokens(Jobs(cqes))
  {
    assert cqes[..|cqes|] == cqes;
  }

  /** What the first `i` completions have done to `start`. */
  ghost predicate Reaped(
    cqes: seq<Cqe>, i: nat, start: set<nat>, done: seq<Done>, kicked: bool, left: set<nat>)
  {
    && i <= |cqes| && done == Jobs(cqes[..i]) && (kicked <==> KickDone in cqes[..i])
    && left == start - Tokens(done)
  }

  lemma ReapedNext(cqes: seq<Cqe>, i: nat, start: set<nat>, done: seq<Done>, kicked: bool, left: set<nat>)
    requires Answers(cqes, start) && Reaped(cqes, i, start, done, kicked, left) && i < |cqes|
    ensures match cqes[i]
      case KickDone => Reaped(cqes, i + 1, start, done, true, left)
      case JobDone(token, result) =>
        token in left && Reaped(cqes, i + 1, start, done + [Done(token, result)], kicked, left - {token})
  {
    NextAnswer(cqes, i, start);
  }

  lemma {:induction false} AnswersPrefix(cqes: seq<Cqe>, i: nat, outstanding: set<nat>)
    requires Answers(cqes, outstanding) && i <= |cqes|
    ensures Answers(cqes[..i], outstanding)
    decreases |cqes|
  {
    if i == |cqes| {
      assert cqes[..i] == cqes;
    } else {
      assert cqes[..|cqes| - 1][..i] == cqes[..i];
      AnswersPrefix(cqes[..|cqes| - 1], i, outstanding);
    }
  }

  /** One more completion, seen from the ones before it. */
  lemma NextAnswer(cqes: seq<Cqe>, i: nat, outstanding: set<nat>)
    requires Answers(cqes, outstanding) && i < |cqes|
    ensures var before, c := cqes[..i], cqes[i];
      && (KickDone in cqes[..i + 1] <==> KickDone in before || c == KickDone)
      && match c
         case KickDone => Jobs(cqes[..i + 1]) == Jobs(before) && KickDone !in before
         case JobDone(token, result) =>
           && Jobs(cqes[..i + 1]) == Jobs(before) + [Done(token, result)]
           && Tokens(Jobs(cqes[..i + 1])) == Tokens(Jobs(before)) + {token}
           && token in outstanding - Tokens(Jobs(before))
  {
    var more, before, c := cqes[..i + 1], cqes[..i], cqes[i];
    AnswersPrefix(cqes, i + 1, outstanding);
    assert more[..|more| - 1] == before && more[|more| - 1] == c && more == before + [c];
    if c.JobDone? {
      var jobs := Jobs(before) + [Done(c.token, c.result)];
      assert jobs[..|jobs| - 1] == Jobs(before);
    }
  }

  /** What a run delivers: distinct tokens, all of them outstanding before. */
  lemma {:induction false} AnswersAreDistinct(cqes: seq<Cqe>, outstanding: set<nat>)
    requires Answers(cqes, outstanding)
    ensures Distinct(Jobs(cqes)) && Tokens(Jobs(cqes)) <= outstanding
  {
    if cqes != [] {
      var front, last := cqes[..|cqes| - 1], cqes[|cqes| - 1];
      AnswersAreDistinct(front, outstanding);
      if last.JobDone? {
        var all := Jobs(front) + [Done(last.token, last.result)];
        assert all[..|all| - 1] == Jobs(front);
      }
    }
  }
}
