/** The `vring_need_event` rule that both sides of a split virtqueue use to decide
    whether to notify the other (section 2.7.10 of VIRTIO 1.2).

    Ring indices are free-running 16-bit counters. Here a counter is the unbounded
    number of entries ever published, and the ring holds it modulo 2^16; the lemmas
    say what a decision taken on the wrapped values means for the true counters. */
module Vring {

  const WRAP: int := 0x1_0000

  type U16 = x: int | 0 <= x < 0x1_0000

  /** `u16::wrapping_sub`. */
  function WrappingSub(a: U16, b: U16): U16 {
    (a - b) % WRAP
  }

  /** What a counter looks like in the ring. */
  function Index(counter: nat): U16 {
    counter % WRAP
  }

  /** Has the index `event` been passed by a batch that moved the ring index from
      `oldIdx` to `newIdx`? */
  predicate NeedEvent(event: U16, newIdx: U16, oldIdx: U16) {
    WrappingSub(WrappingSub(newIdx, event), 1) < WrappingSub(newIdx, oldIdx)
  }

  /** The ring index `k` entries after `from`. */
  function Ahead(from: U16, k: nat): U16 {
    Index(from + k)
  }

  /** `event` is one of the indices a batch of `n` entries starting at `oldIdx` occupies. */
  ghost predicate InCyclicInterval(event: U16, oldIdx: U16, n: nat) {
    exists k: nat :: k < n && event == Ahead(oldIdx, k)
  }

  /** A counter in [from, to) that the ring shows as `event`. */
  ghost predicate Passed(event: U16, from: int, to: nat) {
    exists c: nat :: from <= c < to && Index(c) == event
  }

  lemma WrappingSubOfCounters(a: nat, b: nat)
    ensures WrappingSub(Index(a), Index(b)) == (a - b) % WRAP
  {
    var qa, qb := a / WRAP, b / WRAP;
    assert a == qa * WRAP + Index(a) && b == qb * WRAP + Index(b);
    ModShift(Index(a) - Index(b), qa - qb);
  }

  lemma ModShift(x: int, q: int)
    ensures (x + q * WRAP) % WRAP == x % WRAP
  {
    var y := x + q * WRAP;
    assert y % WRAP - x % WRAP == (x / WRAP + q - y / WRAP) * WRAP;
  }

  /** `vring_need_event` is membership in the cyclic interval [old, new). */
  lemma NeedEventIsCyclicMembership(event: U16, newIdx: U16, oldIdx: U16)
    ensures NeedEvent(event, newIdx, oldIdx)
       <==> InCyclicInterval(event, oldIdx, WrappingSub(newIdx, oldIdx))
  {
    var n := WrappingSub(newIdx, oldIdx);
    var k := WrappingSub(event, oldIdx);
    assert event == Ahead(oldIdx, k);
    forall j: nat | j < n && event == Ahead(oldIdx, j)
      ensures j == k
    {
      SameIndexNearby(oldIdx + j, oldIdx + k);
    }
  }

  /** The exact reach of one decision: on a batch of true length `newer - older`, of any
      length, it sees precisely the last `(newer - older) % 2^16` entries. */
  lemma NeedEventReach(event: U16, newer: nat, older: nat)
    requires older <= newer
    ensures NeedEvent(event, Index(newer), Index(older))
       <==> Passed(event, newer - (newer - older) % WRAP, newer)
  {
    var len := (newer - older) % WRAP;
    WrappingSubOfCounters(newer, older);
    // The only candidate within one lap below `newer`.
    var back := WrappingSub(WrappingSub(Index(newer), event), 1);
    var c := newer - 1 - back;
    CandidateIndex(event, newer);
    if NeedEvent(event, Index(newer), Index(older)) {
      assert newer - len >= older >= 0;
      assert Passed(event, newer - len, newer) by {
        assert newer - len <= c < newer && Index(c) == event;
      }
    }
    if Passed(event, newer - len, newer) {
      var d: nat :| newer - len <= d < newer && Index(d) == event;
      CandidateUnique(event, newer, d);
      assert d == c;
    }
  }

  lemma CandidateIndex(event: U16, newer: nat)
    ensures var c := newer - 1 - WrappingSub(WrappingSub(Index(newer), event), 1);
            c % WRAP == event
  {
    var back := WrappingSub(WrappingSub(Index(newer), event), 1);
    var q := newer / WRAP;
    assert newer == q * WRAP + Index(newer);
    var e := Index(newer) - event;
    assert exists t :: back == e - 1 + t * WRAP by {
      if e <= 0 { assert back == e - 1 + 1 * WRAP; } else { assert back == e - 1 + 0 * WRAP; }
    }
    var t :| back == e - 1 + t * WRAP;
    assert newer - 1 - back == event + (q - t) * WRAP;
    ModShift(event, q - t);
  }

  lemma CandidateUnique(event: U16, newer: nat, d: nat)
    requires newer - WRAP <= d < newer && Index(d) == event
    ensures d == newer - 1 - WrappingSub(WrappingSub(Index(newer), event), 1)
  {
    WrappingSubOfCounters(newer, d);
    assert 1 <= newer - d <= WRAP;
  }

  /** A batch shorter than one lap wakes a peer waiting anywhere inside it, and no other. */
  lemma ShortBatchWakesExactlyItsOwn(waiting: nat, newer: nat, older: nat)
    requires older <= newer < older + WRAP
    requires newer <= waiting + WRAP && waiting < older + WRAP
    ensures NeedEvent(Index(waiting), Index(newer), Index(older)) <==> older <= waiting < newer
  {
    NeedEventReach(Index(waiting), newer, older);
    assert (newer - older) % WRAP == newer - older;
    if Passed(Index(waiting), older, newer) {
      var c: nat :| older <= c < newer && Index(c) == Index(waiting);
      SameIndexNearby(c, waiting);
    }
  }

  lemma SameIndexNearby(c: nat, w: nat)
    requires Index(c) == Index(w)
    requires -WRAP < c - w < WRAP
    ensures c == w
  {
    var qc, qw := c / WRAP, w / WRAP;
    assert c - w == (qc - qw) * WRAP;
  }

  /** The wake-up condition for a batch of any length: a peer waiting inside the batch, at
      most one lap behind its end, is woken if and only if it lies within the last
      `(newer - older) % 2^16` entries. For batches under 2^16 that is all of them. */
  lemma WakesIff(waiting: nat, newer: nat, older: nat)
    requires older <= waiting < newer <= waiting + WRAP
    ensures NeedEvent(Index(waiting), Index(newer), Index(older))
       <==> newer - waiting <= (newer - older) % WRAP
  {
    NeedEventReach(Index(waiting), newer, older);
    var len := (newer - older) % WRAP;
    if Passed(Index(waiting), newer - len, newer) {
      var c: nat :| newer - len <= c < newer && Index(c) == Index(waiting);
      SameIndexNearby(c, waiting);
    }
  }

  /** A batch of exactly one lap is invisible: whatever the peer waits for, it is not woken. */
  lemma FullLapIsNeverSeen(event: U16, older: nat)
    ensures !NeedEvent(event, Index(older + WRAP), Index(older))
  {
    ModShift(older, 1);
  }

  // ---- splitting a batch ----

  /** How many of the consecutive pieces [cuts[0],cuts[1]), [cuts[1],cuts[2]), ... fire. */
  function Firings(event: U16, cuts: seq<nat>): nat {
    if |cuts| < 2 then 0
    else (if NeedEvent(event, Index(cuts[1]), Index(cuts[0])) then 1 else 0) + Firings(event, cuts[1..])
  }

  ghost predicate Ascending(cuts: seq<nat>) {
    forall i, j :: 0 <= i <= j < |cuts| ==> cuts[i] <= cuts[j]
  }

  lemma ShortBatchReach(event: U16, newer: nat, older: nat)
    requires older <= newer < older + WRAP
    ensures NeedEvent(event, Index(newer), Index(older)) <==> Passed(event, older, newer)
  {
    NeedEventReach(event, newer, older);
  }

  lemma SplitOnce(event: U16, older: nat, middle: nat, newer: nat)
    requires older <= middle <= newer < older + WRAP
    ensures NeedEvent(event, Index(newer), Index(older))
       <==> NeedEvent(event, Index(middle), Index(older)) || NeedEvent(event, Index(newer), Index(middle))
    ensures !(NeedEvent(event, Index(middle), Index(older)) && NeedEvent(event, Index(newer), Index(middle)))
  {
    ShortBatchReach(event, newer, older);
    ShortBatchReach(event, middle, older);
    ShortBatchReach(event, newer, middle);
    PassedSplits(event, older, middle, newer);
  }

  lemma PassedSplits(event: U16, older: nat, middle: nat, newer: nat)
    requires older <= middle <= newer < older + WRAP
    ensures Passed(event, older, newer) <==> Passed(event, older, middle) || Passed(event, middle, newer)
    ensures !(Passed(event, older, middle) && Passed(event, middle, newer))
  {
    if Passed(event, older, middle) && Passed(event, middle, newer) {
      var c: nat :| older <= c < middle && Index(c) == event;
      var d: nat :| middle <= d < newer && Index(d) == event;
      SameIndexNearby(c, d);
    }
    if Passed(event, older, newer) {
      var c: nat :| older <= c < newer && Index(c) == event;
      assert c < middle ==> Passed(event, older, middle);
      assert c >= middle ==> Passed(event, middle, newer);
    }
  }

  /** However a batch under one lap is cut into pieces, exactly one piece fires when the
      whole does and none fires when it does not. */
  lemma {:induction false} SplitBatchFiresOnce(event: U16, cuts: seq<nat>)
    requires |cuts| >= 1 && Ascending(cuts)
    requires cuts[|cuts| - 1] < cuts[0] + WRAP
    ensures Firings(event, cuts)
         == if NeedEvent(event, Index(cuts[|cuts| - 1]), Index(cuts[0])) then 1 else 0
  {
    if |cuts| >= 2 {
      SplitBatchFiresOnce(event, cuts[1..]);
      SplitOnce(event, cuts[0], cuts[1], cuts[|cuts| - 1]);
    }
  }
}
