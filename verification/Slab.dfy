/** The worker's bookkeeping as a value: the slab of slots and its free list, what the engine
    holds, and the ledger of every chain taken. Each way a chain can move is a function here,
    and each keeps the books. */
module Slab {
  import opened Wrappers
  import opened Transfer
  import opened Ledger

  /** A used element as the driver reads it. */
  datatype Used = Used(head: nat, len: nat)

  datatype WriteKind = StatusByte | UsedElement | Payload

  /** A write by the worker into memory the driver owns: for which ticket, and under which
      generation of the queue. */
  datatype GuestWrite = GuestWrite(kind: WriteKind, ticket: nat, generation: nat)

  datatype Slab = Slab(
    depth: nat, memSize: nat,
    enabled: bool, generation: nat,  // of the queue
    slots: seq<Option<Slot>>, free: seq<nat>,
    outstanding: set<nat>,  // tokens the engine holds
    pending: set<nat>,      // completions collected and not handled yet
    used: seq<Used>, ledger: Ledger, writes: seq<GuestWrite>)

  /** A token is free exactly when its slot is empty, and no token is listed twice. */
  ghost predicate FreeOk(depth: nat, slots: seq<Option<Slot>>, free: seq<nat>, held: nat) {
    && |slots| == depth
    && (forall i :: 0 <= i < |free| ==> free[i] < depth && slots[free[i]].None?)
    && (forall i, j :: 0 <= i < j < |free| ==> free[i] != free[j])
    && (forall t: nat :: t < depth && slots[t].None? ==> t in free)
    && |free| + held == depth
  }

  ghost predicate SlotsSound(memSize: nat, slots: seq<Option<Slot>>) {
    forall t :: 0 <= t < |slots| && slots[t].Some? ==> Sound(slots[t].value, memSize)
  }

  /** Every occupied slot is some ticket's, and carries that ticket's head and generation. */
  ghost predicate SlotsOk(slots: seq<Option<Slot>>, l: Ledger) {
    && Balanced(l)
    && (forall t: nat :: t < |slots| && slots[t].Some? ==> t in l.holder)
    && (forall t :: t in l.holder ==>
          && t < |slots| && slots[t].Some?
          && slots[t].value.head == l.heads[l.holder[t]]
          && slots[t].value.generation == l.generations[l.holder[t]])
  }

  /** Every used element answers its own ticket's head. */
  ghost predicate UsedOk(used: seq<Used>, heads: seq<nat>, usedBy: seq<nat>) {
    && |used| == |usedBy|
    && (forall p :: 0 <= p < |used| ==> usedBy[p] < |heads| && used[p].head == heads[usedBy[p]])
  }

  /** The engine holds exactly the occupied slots less the completions in hand, and always
      fewer jobs than the ring is deep. */
  ghost predicate EngineOk(depth: nat, held: set<nat>, outstanding: set<nat>, pending: set<nat>) {
    && held == outstanding + pending
    && outstanding !! pending
    && |outstanding| + |pending| < depth
  }

  /** Nothing was ever written for a request of another generation than the queue's own. */
  ghost predicate WritesOk(generation: nat, generations: seq<nat>, writes: seq<GuestWrite>) {
    && (forall i :: 0 <= i < |writes| ==>
          writes[i].ticket < |generations| && writes[i].generation == generations[writes[i].ticket])
    && (forall k :: 0 <= k < |generations| ==> generations[k] <= generation)
  }

  ghost predicate Ok(c: Slab) {
    && FreeOk(c.depth, c.slots, c.free, |c.ledger.holder|)
    && SlotsSound(c.memSize, c.slots)
    && SlotsOk(c.slots, c.ledger)
    && UsedOk(c.used, c.ledger.heads, c.ledger.usedBy)
    && EngineOk(c.depth, c.ledger.holder.Keys, c.outstanding, c.pending)
    && WritesOk(c.generation, c.ledger.generations, c.writes)
  }

  // ---- how a chain can move ----

  /** The engine reports some jobs finished. */
  function Collected(c: Slab, tokens: set<nat>): Slab {
    c.(outstanding := c.outstanding - tokens, pending := c.pending + tokens)
  }

  ghost predicate InHand(c: Slab, token: nat) {
    Ok(c) && token in c.pending
  }

  function Ticket(c: Slab, token: nat): nat
    requires token in c.ledger.holder
  {
    c.ledger.holder[token]
  }

  function Log(c: Slab, ticket: nat, kinds: seq<WriteKind>): seq<GuestWrite> {
    c.writes + seq(|kinds|, i requires 0 <= i < |kinds| => GuestWrite(kinds[i], ticket, c.generation))
  }

  /** A finished request is answered. */
  function Answered(c: Slab, token: nat, element: Used, kinds: seq<WriteKind>): Slab
    requires token in c.ledger.holder && c.ledger.holder[token] < |c.ledger.fates| && token < |c.slots|
  {
    c.(slots := c.slots[token := None], free := c.free + [token], pending := c.pending - {token},
       used := c.used + [element], writes := Log(c, Ticket(c, token), kinds), ledger := Answer(c.ledger, token))
  }

  /** What is left of a request goes back to the engine. */
  function Resumed(c: Slab, token: nat, s: Slot): Slab
    requires token < |c.slots|
  {
    c.(slots := c.slots[token := Some(s)], pending := c.pending - {token}, outstanding := c.outstanding + {token})
  }

  /** A slot comes back without an answer. */
  function GivenBack(c: Slab, token: nat): Slab
    requires token in c.ledger.holder && c.ledger.holder[token] < |c.ledger.fates| && token < |c.slots|
  {
    c.(slots := c.slots[token := None], free := c.free + [token], pending := c.pending - {token},
       ledger := Release(c.ledger, token))
  }

  /** A chain is taken and answered on the spot. */
  function TakenAnswered(c: Slab, element: Used, kinds: seq<WriteKind>): Slab {
    c.(used := c.used + [element], writes := Log(c, |c.ledger.fates|, kinds),
       ledger := TakeAnswered(c.ledger, element.head, c.generation))
  }

  /** A chain is taken into the slot at the end of the free list and handed to the engine. */
  function TakenHeld(c: Slab, s: Slot): Slab
    requires c.free != [] && c.free[|c.free| - 1] < |c.slots|
  {
    var token := c.free[|c.free| - 1];
    c.(slots := c.slots[token := Some(s)], free := c.free[..|c.free| - 1], outstanding := c.outstanding + {token},
       ledger := TakeHeld(c.ledger, s.head, c.generation, token))
  }

  /** The control plane resets the queue, or switches it on or off. */
  function Bumped(c: Slab): Slab {
    c.(enabled := false, generation := c.generation + 1)
  }

  function Switched(c: Slab, on: bool): Slab {
    c.(enabled := on)
  }

  // ---- each part of the books ----

  lemma FreeAfterRelease(depth: nat, slots: seq<Option<Slot>>, free: seq<nat>, held: nat, token: nat)
    requires FreeOk(depth, slots, free, held) && held > 0 && token < depth && slots[token].Some?
    ensures FreeOk(depth, slots[token := None], free + [token], held - 1)
  {}

  lemma FreeAfterUpdate(depth: nat, slots: seq<Option<Slot>>, free: seq<nat>, held: nat, token: nat, s: Slot)
    requires FreeOk(depth, slots, free, held) && token < depth && slots[token].Some?
    ensures FreeOk(depth, slots[token := Some(s)], free, held)
  {}

  lemma FreeAfterTake(depth: nat, slots: seq<Option<Slot>>, free: seq<nat>, held: nat, s: Slot)
    requires FreeOk(depth, slots, free, held) && free != []
    ensures FreeOk(depth, slots[free[|free| - 1] := Some(s)], free[..|free| - 1], held + 1)
  {
    var n := |free| - 1;
    var rest, next := free[..n], slots[free[n] := Some(s)];
    forall t: nat | t < depth && next[t].None? ensures t in rest {
      var i :| 0 <= i < |free| && free[i] == t;
      assert rest[i] == t;
    }
  }

  lemma SlotsAfterAnswer(slots: seq<Option<Slot>>, l: Ledger, token: nat)
    requires SlotsOk(slots, l) && token in l.holder
    ensures token < |slots| && SlotsOk(slots[token := None], Answer(l, token))
  {
    AnswerBalances(l, token);
  }

  lemma SlotsAfterRelease(slots: seq<Option<Slot>>, l: Ledger, token: nat)
    requires SlotsOk(slots, l) && token in l.holder
    ensures token < |slots| && SlotsOk(slots[token := None], Release(l, token))
  {
    ReleaseBalances(l, token);
  }

  lemma SlotsAfterTakeAnswered(slots: seq<Option<Slot>>, l: Ledger, head: nat, generation: nat)
    requires SlotsOk(slots, l)
    ensures SlotsOk(slots, TakeAnswered(l, head, generation))
  {
    TakeAnsweredBalances(l, head, generation);
  }

  lemma SlotsAfterTakeHeld(slots: seq<Option<Slot>>, l: Ledger, s: Slot, generation: nat, token: nat)
    requires SlotsOk(slots, l) && token < |slots| && token !in l.holder && s.generation == generation
    ensures SlotsOk(slots[token := Some(s)], TakeHeld(l, s.head, generation, token))
  {
    TakeHeldBalances(l, s.head, generation, token);
  }

  lemma SlotsAfterUpdate(slots: seq<Option<Slot>>, l: Ledger, s: Slot, token: nat)
    requires SlotsOk(slots, l) && token < |slots| && slots[token].Some?
    requires s.head == slots[token].value.head && s.generation == slots[token].value.generation
    ensures SlotsOk(slots[token := Some(s)], l)
  {}

  lemma SoundAfter(memSize: nat, slots: seq<Option<Slot>>, token: nat, o: Option<Slot>)
    requires SlotsSound(memSize, slots) && token < |slots| && (o.Some? ==> Sound(o.value, memSize))
    ensures SlotsSound(memSize, slots[token := o])
  {}

  lemma UsedAfter(used: seq<Used>, heads: seq<nat>, usedBy: seq<nat>, more: seq<nat>, ticket: nat, element: Used)
    requires UsedOk(used, heads, usedBy) && heads <= more && ticket < |more| && more[ticket] == element.head
    ensures UsedOk(used + [element], more, usedBy + [ticket])
  {}

  /** Where a token in hand is in the books. */
  lemma HandShape(c: Slab, token: nat)
    requires SlotsOk(c.slots, c.ledger) && EngineOk(c.depth, c.ledger.holder.Keys, c.outstanding, c.pending)
    requires token in c.pending
    ensures token in c.ledger.holder && token < |c.slots| && c.slots[token].Some? && token !in c.outstanding
    ensures c.ledger.holder[token] < |c.ledger.fates| == |c.ledger.heads| == |c.ledger.generations|
    ensures c.slots[token].value.head == c.ledger.heads[c.ledger.holder[token]]
    ensures c.slots[token].value.generation == c.ledger.generations[c.ledger.holder[token]]
  {}

  lemma KeysLess(m: map<nat, nat>, k: nat)
    requires k in m
    ensures (m - {k}).Keys == m.Keys - {k} && |m - {k}| == |m| - 1
  {
    RemoveOne(m, k);
  }

  lemma KeysMore(m: map<nat, nat>, k: nat, v: nat)
    requires k !in m
    ensures m[k := v].Keys == m.Keys + {k} && |m[k := v]| == |m| + 1
  {
    assert |m[k := v].Keys| == |m[k := v]| && |m.Keys| == |m|;
  }

  lemma EngineTakes(depth: nat, held: set<nat>, outstanding: set<nat>, pending: set<nat>, token: nat)
    requires EngineOk(depth, held, outstanding, pending) && pending == {}
    requires token !in held && |outstanding| + 1 < depth
    ensures EngineOk(depth, held + {token}, outstanding + {token}, pending) && token !in outstanding
  {}

  lemma LogSuffix(c: Slab, ticket: nat, kinds: seq<WriteKind>) returns (more: seq<GuestWrite>)
    ensures Log(c, ticket, kinds) == c.writes + more
    ensures forall i :: 0 <= i < |more| ==> more[i].ticket == ticket && more[i].generation == c.generation
  {
    more := seq(|kinds|, i requires 0 <= i < |kinds| => GuestWrite(kinds[i], ticket, c.generation));
  }

  lemma WritesAfter(generation: nat, before: seq<nat>, after: seq<nat>, writes: seq<GuestWrite>, more: seq<GuestWrite>)
    requires WritesOk(generation, before, writes) && before <= after
    requires forall k :: |before| <= k < |after| ==> after[k] == generation
    requires forall i :: 0 <= i < |more| ==>
      more[i].ticket < |after| && more[i].generation == generation == after[more[i].ticket]
    ensures WritesOk(generation, after, writes + more)
  {}

  lemma WritesKept(generation: nat, generations: seq<nat>, writes: seq<GuestWrite>)
    requires WritesOk(generation, generations, writes)
    ensures WritesOk(generation, generations + [generation], writes)
  {}

  lemma EngineAfter(depth: nat, held: set<nat>, outstanding: set<nat>, pending: set<nat>, token: nat)
    requires EngineOk(depth, held, outstanding, pending) && token in pending
    ensures EngineOk(depth, held - {token}, outstanding, pending - {token})
    ensures EngineOk(depth, held, outstanding + {token}, pending - {token})
    ensures |outstanding| + 1 < depth
  {
    assert |pending - {token}| == |pending| - 1;
  }

  // ---- each move keeps the books ----

  lemma CollectedOk(c: Slab, tokens: set<nat>)
    requires Ok(c) && tokens <= c.outstanding
    ensures Ok(Collected(c, tokens))
  {
    EngineCollects(c.depth, c.ledger.holder.Keys, c.outstanding, c.pending, tokens);
  }

  lemma EngineCollects(depth: nat, held: set<nat>, outstanding: set<nat>, pending: set<nat>, tokens: set<nat>)
    requires EngineOk(depth, held, outstanding, pending) && tokens <= outstanding
    ensures EngineOk(depth, held, outstanding - tokens, pending + tokens)
  {
    var rest := outstanding - tokens;
    assert outstanding == rest + tokens && |outstanding| == |rest| + |tokens|;
    assert |pending + tokens| == |pending| + |tokens|;
  }

  /** Answering is allowed only under the request's own generation. */
  lemma AnsweredOk(c: Slab, token: nat, element: Used, kinds: seq<WriteKind>)
    requires InHand(c, token)
    requires token < |c.slots| && c.slots[token].Some? && c.slots[token].value.head == element.head
    requires c.slots[token].value.generation == c.generation
    ensures token in c.ledger.holder && c.ledger.holder[token] < |c.ledger.fates|
    ensures Ok(Answered(c, token, element, kinds))
  {
    HandShape(c, token);
    KeysLess(c.ledger.holder, token);
    FreeAfterRelease(c.depth, c.slots, c.free, |c.ledger.holder|, token);
    SoundAfter(c.memSize, c.slots, token, None);
    SlotsAfterAnswer(c.slots, c.ledger, token);
    UsedAfter(c.used, c.ledger.heads, c.ledger.usedBy, c.ledger.heads, Ticket(c, token), element);
    EngineAfter(c.depth, c.ledger.holder.Keys, c.outstanding, c.pending, token);
    var more := LogSuffix(c, Ticket(c, token), kinds);
    WritesAfter(c.generation, c.ledger.generations, c.ledger.generations, c.writes, more);
  }

  lemma GivenBackOk(c: Slab, token: nat)
    requires InHand(c, token)
    ensures token in c.ledger.holder && c.ledger.holder[token] < |c.ledger.fates| && token < |c.slots|
    ensures Ok(GivenBack(c, token))
  {
    HandShape(c, token);
    KeysLess(c.ledger.holder, token);
    FreeAfterRelease(c.depth, c.slots, c.free, |c.ledger.holder|, token);
    SoundAfter(c.memSize, c.slots, token, None);
    SlotsAfterRelease(c.slots, c.ledger, token);
    EngineAfter(c.depth, c.ledger.holder.Keys, c.outstanding, c.pending, token);
  }

  /** A resubmission always finds room: its own completion made it. */
  lemma ResumedOk(c: Slab, token: nat, s: Slot)
    requires InHand(c, token) && Sound(s, c.memSize)
    requires token < |c.slots| && c.slots[token].Some?
    requires s.head == c.slots[token].value.head && s.generation == c.slots[token].value.generation
    ensures Ok(Resumed(c, token, s))
    ensures |c.outstanding| + 1 < c.depth && token !in c.outstanding
  {
    FreeAfterUpdate(c.depth, c.slots, c.free, |c.ledger.holder|, token, s);
    SoundAfter(c.memSize, c.slots, token, Some(s));
    SlotsAfterUpdate(c.slots, c.ledger, s, token);
    EngineAfter(c.depth, c.ledger.holder.Keys, c.outstanding, c.pending, token);
  }

  lemma TakenAnsweredOk(c: Slab, element: Used, kinds: seq<WriteKind>)
    requires Ok(c)
    ensures Ok(TakenAnswered(c, element, kinds))
  {
    var l := TakeAnswered(c.ledger, element.head, c.generation);
    SlotsAfterTakeAnswered(c.slots, c.ledger, element.head, c.generation);
    UsedAfter(c.used, c.ledger.heads, c.ledger.usedBy, l.heads, |c.ledger.fates|, element);
    var more := LogSuffix(c, |c.ledger.fates|, kinds);
    WritesAfter(c.generation, c.ledger.generations, l.generations, c.writes, more);
  }

  /** Taking is allowed only while the engine keeps one entry for the kick read. */
  lemma TakenHeldOk(c: Slab, s: Slot)
    requires Ok(c) && c.free != [] && c.pending == {} && |c.outstanding| + 1 < c.depth
    requires Sound(s, c.memSize) && s.generation == c.generation
    ensures c.free[|c.free| - 1] < |c.slots| && c.free[|c.free| - 1] !in c.outstanding
    ensures Ok(TakenHeld(c, s))
  {
    var token := FreeTokenIsFree(c);
    var d := TakenHeld(c, s);
    HeldSlotsOk(c, s, token);
    HeldEngineOk(c, s, token);
    assert UsedOk(d.used, d.ledger.heads, d.ledger.usedBy) by {
      UsedGrows(c.used, c.ledger.heads, c.ledger.usedBy, s.head);
    }
    assert WritesOk(d.generation, d.ledger.generations, d.writes) by {
      WritesKept(c.generation, c.ledger.generations, c.writes);
    }
  }

  lemma HeldSlotsOk(c: Slab, s: Slot, token: nat)
    requires FreeOk(c.depth, c.slots, c.free, |c.ledger.holder|) && SlotsSound(c.memSize, c.slots)
    requires SlotsOk(c.slots, c.ledger) && c.free != [] && token == c.free[|c.free| - 1]
    requires token < |c.slots| && token !in c.ledger.holder && Sound(s, c.memSize) && s.generation == c.generation
    ensures var d := TakenHeld(c, s);
      && FreeOk(d.depth, d.slots, d.free, |d.ledger.holder|)
      && SlotsSound(d.memSize, d.slots) && SlotsOk(d.slots, d.ledger)
  {
    KeysMore(c.ledger.holder, token, |c.ledger.fates|);
    FreeAfterTake(c.depth, c.slots, c.free, |c.ledger.holder|, s);
    SoundAfter(c.memSize, c.slots, token, Some(s));
    SlotsAfterTakeHeld(c.slots, c.ledger, s, c.generation, token);
  }

  lemma HeldEngineOk(c: Slab, s: Slot, token: nat)
    requires EngineOk(c.depth, c.ledger.holder.Keys, c.outstanding, c.pending) && c.pending == {}
    requires c.free != [] && token == c.free[|c.free| - 1] && token < |c.slots| && token !in c.ledger.holder
    requires |c.outstanding| + 1 < c.depth
    ensures var d := TakenHeld(c, s); EngineOk(d.depth, d.ledger.holder.Keys, d.outstanding, d.pending)
    ensures token !in c.outstanding
  {
    KeysMore(c.ledger.holder, token, |c.ledger.fates|);
    EngineTakes(c.depth, c.ledger.holder.Keys, c.outstanding, c.pending, token);
  }

  lemma FreeTokenIsFree(c: Slab) returns (token: nat)
    requires FreeOk(c.depth, c.slots, c.free, |c.ledger.holder|) && SlotsOk(c.slots, c.ledger) && c.free != []
    ensures token == c.free[|c.free| - 1] < |c.slots| && token !in c.ledger.holder
  {
    token := c.free[|c.free| - 1];
    assert c.slots[token].None?;
  }

  lemma UsedGrows(used: seq<Used>, heads: seq<nat>, usedBy: seq<nat>, head: nat)
    requires UsedOk(used, heads, usedBy)
    ensures UsedOk(used, heads + [head], usedBy)
  {}

  lemma BumpedOk(c: Slab)
    requires Ok(c)
    ensures Ok(Bumped(c))
  {}

  lemma SwitchedOk(c: Slab, on: bool)
    requires Ok(c)
    ensures Ok(Switched(c, on))
  {}

  /** The number published to a resetting device, `depth - free`, counts the occupied slots.
      At zero the engine has nothing left that could still write into guest memory. */
  lemma ZeroMeansNothingOutstanding(c: Slab)
    requires Ok(c)
    ensures c.depth - |c.free| == |c.outstanding| + |c.pending|
    ensures c.depth == |c.free| ==>
      && c.outstanding == {} && c.pending == {}
      && forall t :: 0 <= t < |c.slots| ==> c.slots[t].None?
  {
    assert |c.ledger.holder.Keys| == |c.ledger.holder|;
    assert |c.outstanding + c.pending| == |c.outstanding| + |c.pending|;
    if c.depth == |c.free| {
      assert c.ledger.holder.Keys == {};
    }
  }

  // ---- runs ----

  datatype Move =
    | Collect(tokens: set<nat>)
    | AnswerSlot(token: nat, len: nat, kinds: seq<WriteKind>)
    | Resume(token: nat, slot: Slot)
    | GiveBack(token: nat)
    | AnswerNow(element: Used, kinds: seq<WriteKind>)
    | Hold(slot: Slot)
    | Bump
    | Switch(on: bool)

  /** The queue a slot was taken from is not there any more: it is disabled, or was reset since. */
  predicate Gone(c: Slab, s: Slot) {
    !c.enabled || s.generation != c.generation
  }

  /** When the worker may make a move: it serves only an enabled queue, answers a slot only under
      the slot's generation, gives one back unanswered only when its queue is gone, and takes a
      chain into a slot only with the engine one short of full. */
  ghost predicate Permitted(c: Slab, m: Move) {
    match m
    case Collect(tokens) => tokens <= c.outstanding
    case AnswerSlot(t, _, _) =>
      c.enabled && t in c.pending && t < |c.slots| && c.slots[t].Some? && c.slots[t].value.generation == c.generation
      && t in c.ledger.holder && c.ledger.holder[t] < |c.ledger.fates|
    case Resume(t, s) =>
      c.enabled && t in c.pending && t < |c.slots| && c.slots[t].Some? && Sound(s, c.memSize)
      && s.head == c.slots[t].value.head && s.generation == c.slots[t].value.generation == c.generation
    case GiveBack(t) =>
      t in c.pending && t < |c.slots| && c.slots[t].Some? && Gone(c, c.slots[t].value)
      && t in c.ledger.holder && c.ledger.holder[t] < |c.ledger.fates|
    case AnswerNow(_, _) => c.enabled
    case Hold(s) =>
      c.enabled && c.free != [] && c.free[|c.free| - 1] < |c.slots| && c.pending == {} && |c.outstanding| + 1 < c.depth
      && Sound(s, c.memSize) && s.generation == c.generation
    case Bump => true
    case Switch(_) => true
  }

  ghost function After(c: Slab, m: Move): Slab
    requires Permitted(c, m)
  {
    match m
    case Collect(tokens) => Collected(c, tokens)
    case AnswerSlot(t, len, kinds) => Answered(c, t, Used(c.slots[t].value.head, len), kinds)
    case Resume(t, s) => Resumed(c, t, s)
    case GiveBack(t) => GivenBack(c, t)
    case AnswerNow(element, kinds) => TakenAnswered(c, element, kinds)
    case Hold(s) => TakenHeld(c, s)
    case Bump => Bumped(c)
    case Switch(on) => Switched(c, on)
  }

  /** One permitted move takes `c` to `d`. */
  ghost predicate Moved(c: Slab, m: Move, d: Slab) {
    Permitted(c, m) && d == After(c, m)
  }

  function Empty(depth: nat, memSize: nat): Slab {
    Slab(depth, memSize, false, 0, seq(depth, i => None), seq(depth, i requires 0 <= i < depth => depth - 1 - i),
         {}, {}, [], EMPTY, [])
  }

  lemma EmptyOk(depth: nat, memSize: nat)
    requires depth >= 2
    ensures Ok(Empty(depth, memSize))
  {
    var c := Empty(depth, memSize);
    forall t: nat | t < depth ensures t in c.free {
      assert c.free[depth - 1 - t] == t;
    }
  }

  lemma MoveKeepsOk(c: Slab, m: Move)
    requires Ok(c) && Permitted(c, m)
    ensures Ok(After(c, m))
  {
    match m
    case Collect(tokens) => CollectedOk(c, tokens);
    case AnswerSlot(t, len, kinds) => AnsweredOk(c, t, Used(c.slots[t].value.head, len), kinds);
    case Resume(t, s) => ResumedOk(c, t, s);
    case GiveBack(t) => GivenBackOk(c, t);
    case AnswerNow(element, kinds) => TakenAnsweredOk(c, element, kinds);
    case Hold(s) => TakenHeldOk(c, s);
    case Bump => BumpedOk(c);
    case Switch(on) => SwitchedOk(c, on);
  }

  ghost predicate IsRun(states: seq<Slab>, moves: seq<Move>) {
    && |states| == |moves| + 1
    && states[0].depth >= 2 && states[0] == Empty(states[0].depth, states[0].memSize)
    && forall i :: 0 <= i < |moves| ==> Permitted(states[i], moves[i]) && states[i + 1] == After(states[i], moves[i])
  }

  lemma {:induction false} RunKeepsOk(states: seq<Slab>, moves: seq<Move>, i: nat)
    requires IsRun(states, moves) && i < |states|
    ensures Ok(states[i])
  {
    if i == 0 {
      EmptyOk(states[0].depth, states[0].memSize);
    } else {
      RunKeepsOk(states, moves, i - 1);
      MoveKeepsOk(states[i - 1], moves[i - 1]);
    }
  }

  // ---- why a chain was released ----

  /** The only move that makes a ticket Released is giving it back. */
  lemma MoveReleases(c: Slab, m: Move, k: nat)
    requires Permitted(c, m) && k < |After(c, m).ledger.fates| && After(c, m).ledger.fates[k].Released?
    ensures k < |c.ledger.fates|
    ensures c.ledger.fates[k].Released? || (m.GiveBack? && m.token in c.ledger.holder && c.ledger.holder[m.token] == k)
  {
  }

  /** The step of a run at which ticket `k` was given back. */
  ghost predicate GivenBackAt(states: seq<Slab>, moves: seq<Move>, j: nat, k: nat)
    requires IsRun(states, moves)
  {
    j < |moves| && moves[j].GiveBack? && HeldBy(states[j].ledger, k, moves[j].token)
  }

  /** And its queue was disabled then, or already under a later generation than the chain's own. */
  ghost predicate GoneAt(states: seq<Slab>, moves: seq<Move>, j: nat, k: nat)
    requires IsRun(states, moves)
  {
    && GivenBackAt(states, moves, j, k) && k < |states[j].ledger.generations|
    && (!states[j].enabled || states[j].ledger.generations[k] < states[j].generation)
  }

  lemma {:induction false} ReleasedAt(states: seq<Slab>, moves: seq<Move>, i: nat, k: nat) returns (j: nat)
    requires IsRun(states, moves) && i < |states| && k < |states[i].ledger.fates|
    requires states[i].ledger.fates[k].Released?
    ensures j < i && GivenBackAt(states, moves, j, k)
  {
    j := i - 1;
    MoveReleases(states[j], moves[j], k);
    if states[j].ledger.fates[k].Released? {
      j := ReleasedAt(states, moves, j, k);
    }
  }

  /** What is recorded of a ticket when it is taken never changes. */
  lemma {:induction false} TicketsStay(states: seq<Slab>, moves: seq<Move>, j: nat, i: nat)
    requires IsRun(states, moves) && j <= i < |states|
    ensures states[j].ledger.generations <= states[i].ledger.generations
    ensures states[j].ledger.heads <= states[i].ledger.heads
  {
    if j < i {
      TicketsStay(states, moves, j, i - 1);
    }
  }

  /** The third state of a chain, over every run: a released one was given back at a step at which
      its queue was disabled, or already under a later generation than the chain's own. */
  lemma ReleasedOnlyWhenGone(states: seq<Slab>, moves: seq<Move>, i: nat, k: nat) returns (j: nat)
    requires IsRun(states, moves) && i < |states| && k < |states[i].ledger.fates|
    requires states[i].ledger.fates[k].Released?
    ensures j < i && GoneAt(states, moves, j, k)
    ensures states[j].ledger.generations <= states[i].ledger.generations
  {
    j := ReleasedAt(states, moves, i, k);
    RunKeepsOk(states, moves, i);
    RunKeepsOk(states, moves, j);
    TicketsStay(states, moves, j, i);
    GoneMeansLater(states[j], moves[j].token);
  }

  lemma GoneMeansLater(c: Slab, token: nat)
    requires Ok(c) && token in c.ledger.holder
    ensures token < |c.slots| && c.slots[token].Some? && c.ledger.holder[token] < |c.ledger.generations|
    ensures Gone(c, c.slots[token].value) ==> !c.enabled || c.ledger.generations[c.ledger.holder[token]] < c.generation
  {
  }

  /** So a queue that stays enabled, and is not reset, drops nothing: each chain taken since is in a
      slot or answered. */
  lemma LiveQueueDropsNothing(states: seq<Slab>, moves: seq<Move>, from: nat, i: nat, k: nat)
    requires IsRun(states, moves) && from <= i < |states|
    requires forall j :: from <= j <= i ==> states[j].enabled && states[j].generation == states[from].generation
    requires |states[from].ledger.fates| <= k < |states[i].ledger.fates|
    ensures !states[i].ledger.fates[k].Released?
  {
    RunKeepsOk(states, moves, from);
    if states[i].ledger.fates[k].Released? {
      var j := ReleasedOnlyWhenGone(states, moves, i, k);
      HeldSince(states, moves, from, j, k);
      TakenUnder(states, moves, from, i, k);
    }
  }

  /** A ticket that was held at some step was issued by then. */
  lemma HeldSince(states: seq<Slab>, moves: seq<Move>, from: nat, j: nat, k: nat)
    requires IsRun(states, moves) && from < |states| && j < |states|
    requires k < |states[j].ledger.fates| && |states[from].ledger.fates| <= k
    ensures from < j
  {
    RunKeepsOk(states, moves, from);
    RunKeepsOk(states, moves, j);
    if j <= from {
      TicketsStay(states, moves, j, from);
    }
  }

  /** Chains taken while the generation stands still carry it. */
  lemma {:induction false} TakenUnder(states: seq<Slab>, moves: seq<Move>, from: nat, i: nat, k: nat)
    requires IsRun(states, moves) && from <= i < |states|
    requires forall j :: from <= j <= i ==> states[j].generation == states[from].generation
    requires |states[from].ledger.generations| <= k < |states[i].ledger.generations|
    ensures states[i].ledger.generations[k] == states[from].generation
  {
    MoveTakes(states[i - 1], moves[i - 1]);
    if k < |states[i - 1].ledger.generations| {
      TakenUnder(states, moves, from, i - 1, k);
    }
  }

  lemma MoveTakes(c: Slab, m: Move)
    requires Permitted(c, m)
    ensures var before, after := c.ledger.generations, After(c, m).ledger.generations;
      after == before || after == before + [c.generation]
  {
  }

  /** Exactly-once completion, over every run: a chain taken from the ring is in exactly one of
      three states, a used element for it carries its own head, and one that was released was given
      back when its queue was gone. */
  lemma EveryChainOnce(states: seq<Slab>, moves: seq<Move>, i: nat, k: nat)
    requires IsRun(states, moves) && i < |states| && k < |states[i].ledger.fates|
    ensures var c, l := states[i], states[i].ledger;
      && |l.heads| == |l.fates| == |l.usedBy| + |l.holder| + l.released && |c.used| == |l.usedBy|
      && match l.fates[k]
         case Held(t) =>
           && t < |c.slots| && c.slots[t].Some? && c.slots[t].value.head == l.heads[k] && t !in c.free
           && (forall u :: HeldBy(l, k, u) ==> u == t) && multiset(l.usedBy)[k] == 0
         case Returned(p) =>
           p < |c.used| && c.used[p].head == l.heads[k] && multiset(l.usedBy)[k] == 1 && !(exists u :: HeldBy(l, k, u))
         case Released =>
           && multiset(l.usedBy)[k] == 0 && !(exists u :: HeldBy(l, k, u))
           && exists j: nat :: j < i && GoneAt(states, moves, j, k)
  {
    RunKeepsOk(states, moves, i);
    ExactlyOnce(states[i].ledger, k);
    if states[i].ledger.fates[k].Released? {
      var j := ReleasedOnlyWhenGone(states, moves, i, k);
      assert GoneAt(states, moves, j, k);
    }
  }

  /** Reset safety, over every run: each write into the driver's memory was made under the
      generation its request was taken in. */
  lemma NoWriteAcrossReset(states: seq<Slab>, moves: seq<Move>, i: nat, w: nat)
    requires IsRun(states, moves) && i < |states| && w < |states[i].writes|
    ensures var c := states[i]; var e := c.writes[w];
      e.ticket < |c.ledger.generations| && e.generation == c.ledger.generations[e.ticket] <= c.generation
  {
    RunKeepsOk(states, moves, i);
  }

  /** Nor does a request of an earlier generation go on: over every run, one that is handed back to the
      engine, or answered from its slot, was taken under the generation of that moment. */
  lemma NoResumeAcrossReset(states: seq<Slab>, moves: seq<Move>, i: nat)
    requires IsRun(states, moves) && i < |moves| && (moves[i].Resume? || moves[i].AnswerSlot?)
    ensures var c, t := states[i], moves[i].token;
      && t in c.ledger.holder && c.ledger.holder[t] < |c.ledger.generations|
      && c.enabled && c.ledger.generations[c.ledger.holder[t]] == c.generation
  {
    RunKeepsOk(states, moves, i);
  }

  /** Ring capacity, over every run: with one entry kept for the kick read there is always
      room for what the worker does next. */
  lemma RingNeverFull(states: seq<Slab>, moves: seq<Move>, i: nat)
    requires IsRun(states, moves) && i < |states|
    ensures var c := states[i];
      && |c.outstanding| + |c.pending| <= c.depth - 1
      && (c.pending != {} ==> |c.outstanding| <= c.depth - 2)
  {
    RunKeepsOk(states, moves, i);
    var c := states[i];
    if c.pending != {} {
      var t :| t in c.pending;
      EngineAfter(c.depth, c.ledger.holder.Keys, c.outstanding, c.pending, t);
    }
  }

  // ---- what a worker may rely on ----

  /** The state at the end of some run. */
  ghost predicate Reached(c: Slab) {
    exists states, moves :: IsRun(states, moves) && states[|moves|] == c
  }

  lemma ReachedEmpty(depth: nat, memSize: nat)
    requires depth >= 2
    ensures Reached(Empty(depth, memSize))
  {
    assert IsRun([Empty(depth, memSize)], []);
  }

  lemma ReachedAfter(c: Slab, m: Move)
    requires Reached(c) && Permitted(c, m)
    ensures Reached(After(c, m))
  {
    var states, moves :| IsRun(states, moves) && states[|moves|] == c;
    var longer, more := states + [After(c, m)], moves + [m];
    forall i | 0 <= i < |more| ensures Permitted(longer[i], more[i]) && longer[i + 1] == After(longer[i], more[i]) {
      assert i < |moves| ==> longer[i] == states[i] && longer[i + 1] == states[i + 1] && more[i] == moves[i];
    }
    assert IsRun(longer, more);
  }

  lemma ReachedOk(c: Slab)
    requires Reached(c)
    ensures Ok(c)
  {
    var states, moves :| IsRun(states, moves) && states[|moves|] == c;
    RunKeepsOk(states, moves, |moves|);
  }

  /** A completion in hand belongs to an occupied slot; giving the slot back is permitted when its
      queue is gone, and there is room to resubmit it. */
  lemma HandFacts(c: Slab, token: nat)
    requires Reached(c) && token in c.pending
    ensures token < |c.slots| && c.slots[token].Some? && Sound(c.slots[token].value, c.memSize)
    ensures token in c.ledger.holder && c.ledger.holder[token] < |c.ledger.fates|
    ensures Gone(c, c.slots[token].value) ==> Permitted(c, GiveBack(token))
    ensures token !in c.outstanding && |c.outstanding| + 1 < c.depth
  {
    ReachedOk(c);
    HandShape(c, token);
    EngineAfter(c.depth, c.ledger.holder.Keys, c.outstanding, c.pending, token);
  }

  /** The last free token's slot is empty and unknown to the engine. */
  lemma FreeFacts(c: Slab)
    requires Reached(c) && c.free != []
    ensures c.free[|c.free| - 1] < |c.slots| && c.free[|c.free| - 1] !in c.outstanding
  {
    ReachedOk(c);
    var token := FreeTokenIsFree(c);
    assert token !in c.ledger.holder.Keys;
  }

  /** The bound on what the published count can hide. */
  lemma CountFacts(c: Slab)
    requires Reached(c)
    ensures |c.free| <= c.depth && c.depth - |c.free| == |c.outstanding| + |c.pending|
    ensures c.depth == |c.free| ==> c.outstanding == {} && c.pending == {}
  {
    ReachedOk(c);
    ZeroMeansNothingOutstanding(c);
  }
}
