/** What became of every chain a worker took from its ring.

    A ticket is issued for each chain taken, in order. The ledger is proof state: the worker
    keeps it beside its slab to show that no chain is lost and none is answered twice. */
module Ledger {

  datatype Fate =
    | Held(token: nat)     // in the slot under this token
    | Returned(pos: nat)   // the used element at this position
    | Released             // given back unanswered: its queue was disabled or reset

  /** `heads` and `generations` by ticket; `usedBy` says whose each used element is. */
  datatype Ledger = Ledger(
    heads: seq<nat>, generations: seq<nat>, fates: seq<Fate>, usedBy: seq<nat>,
    holder: map<nat, nat>, released: nat)

  const EMPTY := Ledger([], [], [], [], map[], 0)

  /** Fates and their witnesses agree in both directions, and the books add up. */
  ghost predicate Balanced(l: Ledger) {
    && |l.heads| == |l.generations| == |l.fates|
    && (forall k :: 0 <= k < |l.fates| ==>
          match l.fates[k]
          case Held(t) => t in l.holder && l.holder[t] == k
          case Returned(p) => p < |l.usedBy| && l.usedBy[p] == k
          case Released => true)
    && (forall t :: t in l.holder ==> l.holder[t] < |l.fates| && l.fates[l.holder[t]] == Held(t))
    && (forall p :: 0 <= p < |l.usedBy| ==> l.usedBy[p] < |l.fates| && l.fates[l.usedBy[p]] == Returned(p))
    && |l.fates| == |l.usedBy| + |l.holder| + l.released
  }

  /** A chain taken and answered on the spot. */
  function TakeAnswered(l: Ledger, head: nat, generation: nat): Ledger {
    l.(heads := l.heads + [head], generations := l.generations + [generation],
       fates := l.fates + [Returned(|l.usedBy|)], usedBy := l.usedBy + [|l.fates|])
  }

  /** A chain taken into the slot under `token`. */
  function TakeHeld(l: Ledger, head: nat, generation: nat, token: nat): Ledger {
    l.(heads := l.heads + [head], generations := l.generations + [generation],
       fates := l.fates + [Held(token)], holder := l.holder[token := |l.fates|])
  }

  /** The chain in `token`'s slot is answered. */
  function Answer(l: Ledger, token: nat): Ledger
    requires token in l.holder && l.holder[token] < |l.fates|
  {
    l.(fates := l.fates[l.holder[token] := Returned(|l.usedBy|)], usedBy := l.usedBy + [l.holder[token]],
       holder := l.holder - {token})
  }

  /** The chain in `token`'s slot is given back unanswered. */
  function Release(l: Ledger, token: nat): Ledger
    requires token in l.holder && l.holder[token] < |l.fates|
  {
    l.(fates := l.fates[l.holder[token] := Released], holder := l.holder - {token}, released := l.released + 1)
  }

  lemma TakeAnsweredBalances(l: Ledger, head: nat, generation: nat)
    requires Balanced(l)
    ensures Balanced(TakeAnswered(l, head, generation))
  {}

  lemma TakeHeldBalances(l: Ledger, head: nat, generation: nat, token: nat)
    requires Balanced(l) && token !in l.holder
    ensures Balanced(TakeHeld(l, head, generation, token))
  {
    assert |l.holder[token := |l.fates|]| == |l.holder| + 1 by {
      assert l.holder[token := |l.fates|].Keys == l.holder.Keys + {token};
      assert |l.holder.Keys| == |l.holder|;
    }
  }

  lemma RemoveOne(m: map<nat, nat>, k: nat)
    requires k in m
    ensures |m - {k}| == |m| - 1
  {
    assert (m - {k}).Keys == m.Keys - {k};
    assert |(m - {k}).Keys| == |m - {k}| && |m.Keys| == |m|;
  }

  lemma AnswerBalances(l: Ledger, token: nat)
    requires Balanced(l) && token in l.holder
    ensures Balanced(Answer(l, token))
  {
    RemoveOne(l.holder, token);
  }

  lemma ReleaseBalances(l: Ledger, token: nat)
    requires Balanced(l) && token in l.holder
    ensures Balanced(Release(l, token))
  {
    RemoveOne(l.holder, token);
  }

  ghost predicate HeldBy(l: Ledger, k: nat, t: nat) {
    t in l.holder && l.holder[t] == k
  }

  /** Exactly one of three: a ticket sits in exactly one slot and in no used element; or in
      exactly one used element and in no slot; or in neither, and then it was released. */
  lemma ExactlyOnce(l: Ledger, k: nat)
    requires Balanced(l) && k < |l.fates|
    ensures match l.fates[k]
      case Held(t) => HeldBy(l, k, t) && (forall u :: HeldBy(l, k, u) ==> u == t) && multiset(l.usedBy)[k] == 0
      case Returned(p) => l.usedBy[p] == k && multiset(l.usedBy)[k] == 1 && !(exists u :: HeldBy(l, k, u))
      case Released => multiset(l.usedBy)[k] == 0 && !(exists u :: HeldBy(l, k, u))
  {
    match l.fates[k]
    case Held(t) => NotIn(l.usedBy, k);
    case Released => NotIn(l.usedBy, k);
    case Returned(p) =>
      OnlyAt(l.usedBy, k, p);
  }

  lemma NotIn(s: seq<nat>, k: nat)
    requires forall p :: 0 <= p < |s| ==> s[p] != k
    ensures multiset(s)[k] == 0
  {
    assert k !in s;
  }

  lemma OnlyAt(s: seq<nat>, k: nat, p: nat)
    requires p < |s| && s[p] == k
    requires forall q :: 0 <= q < |s| && q != p ==> s[q] != k
    ensures multiset(s)[k] == 1
  {
    var a, b := s[..p], s[p + 1..];
    assert s == a + [k] + b;
    NotIn(a, k);
    NotIn(b, k);
  }
}
