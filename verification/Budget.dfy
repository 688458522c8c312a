/** The ceiling on a guest's share of the GPU: a token bucket in nanoseconds of engine time, filled
    by the wall clock and drained by what the kernel's counters say was used. Reals stand for the
    source's floating point. */
module Budget {
  import opened Wrappers

  const UNLIMITED: nat := 100
  const BURST: real := 4_000_000.0
  const MAX_DEBT: real := 100_000_000.0
  const SAMPLE_OK: nat := 1_000_000
  const SAMPLE_HELD: nat := 200_000
  const MAX_SLEEP: nat := 2_000_000
  const MIN_SLEEP: nat := 100_000
  const U64_MAX: nat := 0xFFFF_FFFF_FFFF_FFFF

  /** When the counters were last read, what they said, and what the guest may still spend. */
  datatype Pace = Pace(at: nat, engine: Option<nat>, bank: real)

  datatype Sample = Sample(gfx: nat, compute: nat)

  /** What one turn of the loop sees: the limit in force, the clock, the counters if there is a
      client yet, the work in a nanosecond at the present shader clock, and the stop flag. */
  datatype Turn = Turn(percent: nat, now: nat, sample: Option<Sample>, work: real, stop: bool)

  /** `set`: no limit is 100, and anything else ends up in 1..=100. */
  function Limit(percent: Option<nat>): (r: nat)
    ensures 1 <= r <= UNLIMITED
    ensures percent.None? ==> r == UNLIMITED
    ensures percent.Some? && 1 <= percent.value <= UNLIMITED ==> r == percent.value
  {
    match percent
    case None => UNLIMITED
    case Some(p) => if p < 1 then 1 else if p > UNLIMITED then UNLIMITED else p
  }

  function Rate(percent: nat): real {
    percent as real / 100.0
  }

  function Minus(a: nat, b: nat): nat {
    if a < b then 0 else a - b
  }

  function Total(s: Sample): nat {
    if s.gfx + s.compute > U64_MAX then U64_MAX else s.gfx + s.compute
  }

  function Clamp(x: real): real {
    if x < -MAX_DEBT then -MAX_DEBT else if x > BURST then BURST else x
  }

  // ---- one turn ----

  predicate Due(p: Pace, now: nat) {
    p.engine.None? || Minus(now, p.at) >= (if p.bank < 0.0 then SAMPLE_HELD else SAMPLE_OK)
  }

  /** Engine time charged when the counters are read. */
  function Used(p: Pace, t: Turn): real
    requires t.sample.Some? && p.engine.Some?
  {
    Minus(Total(t.sample.value), p.engine.value) as real * t.work
  }

  /** The balance before it is clamped. */
  function Balance(p: Pace, t: Turn): real
    requires t.sample.Some? && p.engine.Some?
  {
    p.bank + Rate(t.percent) * Minus(t.now, p.at) as real - Used(p, t)
  }

  function Look(p: Pace, t: Turn): Pace {
    if t.percent >= UNLIMITED || !Due(p, t.now) || t.sample.None? then p
    else
      Pace(t.now, Some(Total(t.sample.value)), if p.engine.None? then p.bank else Clamp(Balance(p, t)))
  }

  /** How long to sleep on a debt. */
  function Sleep(bank: real, rate: real): (ns: nat)
    requires bank < 0.0 && rate > 0.0
    ensures MIN_SLEEP <= ns <= MAX_SLEEP
    ensures MIN_SLEEP <= (-bank / rate).Floor <= MAX_SLEEP ==> ns == (-bank / rate).Floor
  {
    var owed := (-bank / rate).Floor;
    if owed < MIN_SLEEP then MIN_SLEEP else if owed > MAX_SLEEP then MAX_SLEEP else owed
  }

  /** The submission waits: there is a limit, the counters were not missing, and the guest owes. */
  predicate Waits(p: Pace, t: Turn) {
    t.percent < UNLIMITED && !(Due(p, t.now) && t.sample.None?) && Look(p, t).bank < 0.0
  }

  // ---- one call ----

  /** The turns a call takes from `i` on, and how long it slept. */
  function Sleeps(p: Pace, turns: seq<Turn>, i: nat): nat
    requires i <= |turns| && forall j :: 0 <= j < |turns| ==> turns[j].percent >= 1
    decreases |turns| - i
  {
    if i == |turns| || !Waits(p, turns[i]) || turns[i].stop then 0
    else Sleep(Look(p, turns[i]).bank, Rate(turns[i].percent)) + Sleeps(Look(p, turns[i]), turns, i + 1)
  }

  function TurnsHeld(p: Pace, turns: seq<Turn>, i: nat): nat
    requires i <= |turns|
    decreases |turns| - i
  {
    if i == |turns| || !Waits(p, turns[i]) || turns[i].stop then 0
    else 1 + TurnsHeld(Look(p, turns[i]), turns, i + 1)
  }

  function After(p: Pace, turns: seq<Turn>, n: nat): Pace
    requires n <= |turns|
  {
    if n == 0 then p else Look(After(p, turns, n - 1), turns[n - 1])
  }

  class GpuBudget {
    var at: nat
    var engine: Option<nat>
    var bank: real

    ghost function View(): Pace
      reads this
    {
      Pace(at, engine, bank)
    }

    ghost predicate Valid()
      reads this
    {
      -MAX_DEBT <= bank <= BURST
    }

    constructor (now: nat)
      ensures Valid() && View() == Pace(now, None, BURST)
    {
      at, engine, bank := now, None, BURST;
    }

    /** Read the counters if it is time to, and settle with the bank. */
    method Read(t: Turn) returns (noClient: bool)
      requires Valid() && t.percent < UNLIMITED
      modifies this
      ensures Valid() && View() == Look(old(View()), t)
      ensures noClient == (Due(old(View()), t.now) && t.sample.None?)
    {
      noClient := false;
      var due := if bank < 0.0 then SAMPLE_HELD else SAMPLE_OK;
      if engine.None? || Minus(t.now, at) >= due {
        if t.sample.None? {
          return true;
        }
        var total := Total(t.sample.value);
        if engine.Some? {
          bank := Clamp(Balance(Pace(at, engine, bank), t));
        }
        engine, at := Some(total), t.now;
      }
    }

    /** `pace`, against what the world will show it turn by turn. It slept in `held` turns, and with
        turns to spare returned in the next. */
    method PaceCall(turns: seq<Turn>) returns (waited: nat, held: nat)
      requires Valid() && forall j :: 0 <= j < |turns| ==> turns[j].percent >= 1
      modifies this
      ensures Valid() && held == TurnsHeld(old(View()), turns, 0) <= |turns|
      ensures waited == Sleeps(old(View()), turns, 0)
      ensures View() == After(old(View()), turns, if held < |turns| then held + 1 else held)
    {
      waited, held := 0, 0;
      while held < |turns|
        invariant held <= |turns| && Valid()
        invariant View() == After(old(View()), turns, held)
        invariant held + TurnsHeld(View(), turns, held) == TurnsHeld(old(View()), turns, 0)
        invariant waited + Sleeps(View(), turns, held) == Sleeps(old(View()), turns, 0)
      {
        var t := turns[held];
        if t.percent >= UNLIMITED {
          return;
        }
        var noClient := Read(t);
        if noClient || bank >= 0.0 || t.stop {
          return;
        }
        waited := waited + Sleep(bank, Rate(t.percent));
        held := held + 1;
      }
    }
  }

  // ---- the bank ----

  /** Whatever the limits and the counters do. */
  lemma {:induction false} BankStaysInBounds(p: Pace, turns: seq<Turn>, n: nat)
    requires n <= |turns| && -MAX_DEBT <= p.bank <= BURST
    ensures -MAX_DEBT <= After(p, turns, n).bank <= BURST
  {
    if n > 0 {
      BankStaysInBounds(p, turns, n - 1);
    }
  }

  // ---- what a guest can get ----

  /** What a turn charges, and what clamping gives away on either side. */
  function Charge(p: Pace, t: Turn): real {
    if Look(p, t) == p || p.engine.None? || t.sample.None? then 0.0 else Used(p, t)
  }

  function Spill(p: Pace, t: Turn): real {
    if Look(p, t) == p || p.engine.None? || t.sample.None? || Balance(p, t) <= BURST then 0.0
    else Balance(p, t) - BURST
  }

  function Forgive(p: Pace, t: Turn): real {
    if Look(p, t) == p || p.engine.None? || t.sample.None? || Balance(p, t) >= -MAX_DEBT then 0.0
    else -MAX_DEBT - Balance(p, t)
  }

  /** A quantity of each turn, turn by turn. */
  ghost function Each(p: Pace, turns: seq<Turn>, of: (Pace, Turn) -> real): seq<real> {
    seq(|turns|, i requires 0 <= i < |turns| => of(After(p, turns, i), turns[i]))
  }

  ghost function Sum(xs: seq<real>, n: nat): real
    requires n <= |xs|
  {
    if n == 0 then 0.0 else Sum(xs, n - 1) + xs[n - 1]
  }

  /** Over a whole stretch. */
  ghost function Over(p: Pace, turns: seq<Turn>, of: (Pace, Turn) -> real): real {
    Sum(Each(p, turns, of), |turns|)
  }

  ghost predicate Limited(turns: seq<Turn>, percent: nat) {
    percent < UNLIMITED && forall i :: 0 <= i < |turns| ==> turns[i].percent == percent
  }

  function Earned(percent: nat, from: nat, to: nat): real {
    Rate(percent) * (to - from) as real
  }

  /** One turn's books balance exactly. */
  lemma TurnBalances(p: Pace, t: Turn)
    requires p.engine.Some? && t.percent < UNLIMITED
    ensures Look(p, t).engine.Some? && p.at <= Look(p, t).at
    ensures Charge(p, t) == Earned(t.percent, p.at, Look(p, t).at)
              + p.bank - Look(p, t).bank - Spill(p, t) + Forgive(p, t)
    ensures Spill(p, t) >= 0.0 && Forgive(p, t) >= 0.0
  {
  }

  lemma {:induction false} SumsBalance(
    charge: seq<real>, earn: seq<real>, bank: seq<real>, spill: seq<real>, forgive: seq<real>, n: nat)
    requires n <= |charge| == |earn| == |spill| == |forgive| == |bank| - 1
    requires forall i :: 0 <= i < |charge| ==> charge[i] == earn[i] + bank[i] - bank[i + 1] - spill[i] + forgive[i]
    ensures Sum(charge, n) == Sum(earn, n) + bank[0] - bank[n] - Sum(spill, n) + Sum(forgive, n)
  {
    if n > 0 {
      SumsBalance(charge, earn, bank, spill, forgive, n - 1);
    }
  }

  lemma {:induction false} SumNotNegative(xs: seq<real>, n: nat)
    requires n <= |xs| && forall i :: 0 <= i < |xs| ==> xs[i] >= 0.0
    ensures Sum(xs, n) >= 0.0
  {
    if n > 0 {
      SumNotNegative(xs, n - 1);
    }
  }

  lemma EarnedAdds(percent: nat, from: nat, mid: nat, to: nat)
    ensures Earned(percent, from, mid) + Earned(percent, mid, to) == Earned(percent, from, to)
  {
    var a, b := (mid - from) as real, (to - mid) as real;
    assert (to - from) as real == a + b;
  }

  lemma {:induction false} EarningsAdd(earn: seq<real>, at: seq<nat>, percent: nat, n: nat)
    requires n <= |earn| == |at| - 1
    requires forall i :: 0 <= i < |earn| ==> earn[i] == Earned(percent, at[i], at[i + 1])
    ensures Sum(earn, n) == Earned(percent, at[0], at[n])
  {
    if n > 0 {
      EarningsAdd(earn, at, percent, n - 1);
      EarnedAdds(percent, at[0], at[n - 1], at[n]);
    }
  }

  function Earn(p: Pace, t: Turn): real {
    Earned(t.percent, p.at, Look(p, t).at)
  }

  /** A stretch keeps a client, and its clock only goes forward. */
  lemma {:induction false} StretchGoesOn(p: Pace, turns: seq<Turn>, percent: nat, n: nat)
    requires n <= |turns| && p.engine.Some? && Limited(turns, percent)
    ensures After(p, turns, n).engine.Some? && p.at <= After(p, turns, n).at
  {
    if n > 0 {
      StretchGoesOn(p, turns, percent, n - 1);
      TurnBalances(After(p, turns, n - 1), turns[n - 1]);
    }
  }

  lemma TurnOfStretch(p: Pace, turns: seq<Turn>, percent: nat, i: nat)
    requires p.engine.Some? && Limited(turns, percent) && i < |turns|
    ensures var q, t := After(p, turns, i), turns[i];
      && After(p, turns, i + 1) == Look(q, t) && t.percent == percent
      && Charge(q, t) == Earn(q, t) + q.bank - Look(q, t).bank - Spill(q, t) + Forgive(q, t)
      && Spill(q, t) >= 0.0 && Forgive(q, t) >= 0.0
  {
    StretchGoesOn(p, turns, percent, i);
    TurnBalances(After(p, turns, i), turns[i]);
  }

  ghost function Banks(p: Pace, turns: seq<Turn>): seq<real> {
    seq(|turns| + 1, i requires 0 <= i <= |turns| => After(p, turns, i).bank)
  }

  ghost function Reads(p: Pace, turns: seq<Turn>): seq<nat> {
    seq(|turns| + 1, i requires 0 <= i <= |turns| => After(p, turns, i).at)
  }

  lemma TurnCharges(p: Pace, turns: seq<Turn>, percent: nat, i: nat)
    requires p.engine.Some? && Limited(turns, percent) && i < |turns|
    ensures Each(p, turns, Charge)[i] == Each(p, turns, Earn)[i] + Banks(p, turns)[i] - Banks(p, turns)[i + 1]
              - Each(p, turns, Spill)[i] + Each(p, turns, Forgive)[i]
  {
    TurnOfStretch(p, turns, percent, i);
  }

  lemma TurnGives(p: Pace, turns: seq<Turn>, percent: nat, i: nat)
    requires p.engine.Some? && Limited(turns, percent) && i < |turns|
    ensures Each(p, turns, Spill)[i] >= 0.0 && Each(p, turns, Forgive)[i] >= 0.0
  {
    TurnOfStretch(p, turns, percent, i);
  }

  lemma TurnEarns(p: Pace, turns: seq<Turn>, percent: nat, i: nat)
    requires p.engine.Some? && Limited(turns, percent) && i < |turns|
    ensures Each(p, turns, Earn)[i] == Earned(percent, Reads(p, turns)[i], Reads(p, turns)[i + 1])
  {
    TurnOfStretch(p, turns, percent, i);
    var now := After(p, turns, i);
    assert Reads(p, turns)[i] == now.at && Reads(p, turns)[i + 1] == Look(now, turns[i]).at;
    assert Each(p, turns, Earn)[i] == Earn(now, turns[i]);
  }

  lemma StretchEarns(p: Pace, turns: seq<Turn>, percent: nat)
    requires p.engine.Some? && Limited(turns, percent)
    ensures Over(p, turns, Earn) == Earned(percent, p.at, After(p, turns, |turns|).at)
  {
    forall i | 0 <= i < |turns|
      ensures Each(p, turns, Earn)[i] == Earned(percent, Reads(p, turns)[i], Reads(p, turns)[i + 1])
    {
      TurnEarns(p, turns, percent, i);
    }
    EarningsAdd(Each(p, turns, Earn), Reads(p, turns), percent, |turns|);
  }

  lemma StretchGives(p: Pace, turns: seq<Turn>, percent: nat)
    requires p.engine.Some? && Limited(turns, percent)
    ensures Over(p, turns, Spill) >= 0.0 && Over(p, turns, Forgive) >= 0.0
  {
    forall i | 0 <= i < |turns|
      ensures Each(p, turns, Spill)[i] >= 0.0 && Each(p, turns, Forgive)[i] >= 0.0
    {
      TurnGives(p, turns, percent, i);
    }
    SumNotNegative(Each(p, turns, Spill), |turns|);
    SumNotNegative(Each(p, turns, Forgive), |turns|);
  }

  /** Any stretch at one limit, however many calls it spans, balances exactly: what was charged is
      what the clock earned, plus what the bank gave up, less what spilled, plus what was
      forgiven. */
  lemma StretchBalances(p: Pace, turns: seq<Turn>, percent: nat)
    requires p.engine.Some? && Limited(turns, percent)
    ensures Over(p, turns, Charge) == Over(p, turns, Earn)
              + p.bank - After(p, turns, |turns|).bank - Over(p, turns, Spill) + Over(p, turns, Forgive)
  {
    forall i | 0 <= i < |turns|
      ensures Each(p, turns, Charge)[i] == Each(p, turns, Earn)[i] + Banks(p, turns)[i] - Banks(p, turns)[i + 1]
                - Each(p, turns, Spill)[i] + Each(p, turns, Forgive)[i]
    {
      TurnCharges(p, turns, percent, i);
    }
    SumsBalance(Each(p, turns, Charge), Each(p, turns, Earn), Banks(p, turns),
      Each(p, turns, Spill), Each(p, turns, Forgive), |turns|);
  }

  /** So over a stretch in which no debt was forgiven a guest gets its rate, and at most a burst
      and a full debt more. */
  lemma ShareIsBounded(p: Pace, turns: seq<Turn>, percent: nat)
    requires p.engine.Some? && -MAX_DEBT <= p.bank <= BURST && Limited(turns, percent)
    ensures Over(p, turns, Charge)
         <= Earned(percent, p.at, After(p, turns, |turns|).at) + BURST + MAX_DEBT + Over(p, turns, Forgive)
  {
    StretchBalances(p, turns, percent);
    StretchEarns(p, turns, percent);
    StretchGives(p, turns, percent);
    BankStaysInBounds(p, turns, |turns|);
  }

  /** Forgiving is what breaks the ceiling: a budget that has read the counters once, and a millisecond
      later finds a second of engine time, leaves most of it unpaid. */
  lemma ForgivenDebtExceedsTheShare()
    ensures var first := Turn(10, 0, Some(Sample(0, 0)), 1.0, false);
      var p := Look(Pace(0, None, BURST), first);
      var turns := [Turn(10, 1_000_000, Some(Sample(1_000_000_000, 0)), 1.0, false)];
      && p == Pace(0, Some(0), BURST)
      && Over(p, turns, Forgive) > 0.0
      && Over(p, turns, Charge) > Earned(10, p.at, After(p, turns, 1).at) + BURST + MAX_DEBT
  {
    var p := Pace(0, Some(0), BURST);
    var t := Turn(10, 1_000_000, Some(Sample(1_000_000_000, 0)), 1.0, false);
    assert Due(p, t.now) && Used(p, t) == 1_000_000_000.0;
    assert Balance(p, t) == BURST - 999_900_000.0;
    assert After(p, [t], 1) == Look(After(p, [t], 0), t) == Look(p, t);
    assert Over(p, [t], Charge) == Sum(Each(p, [t], Charge), 0) + Charge(p, t);
    assert Over(p, [t], Forgive) == Sum(Each(p, [t], Forgive), 0) + Forgive(p, t);
  }

  // ---- how long a guest is held ----

  /** The time the debt takes to repay. */
  function Owed(bank: real, percent: nat): real
    requires percent >= 1
  {
    -bank / Rate(percent)
  }

  /** Nothing more is used: every turn sees the counters where they were. */
  ghost predicate Idle(p: Pace, turns: seq<Turn>, percent: nat) {
    && 1 <= percent && Limited(turns, percent) && p.engine.Some?
    && forall i :: 0 <= i < |turns| ==> turns[i].sample.Some? && Total(turns[i].sample.value) == p.engine.value
  }

  /** Each turn is at least the computed sleep after the one before it. */
  ghost predicate Slept(p: Pace, last: nat, turns: seq<Turn>, percent: nat, i: nat)
    requires percent >= 1 && i <= |turns|
    decreases |turns| - i
  {
    i < |turns| && p.bank < 0.0 ==>
      && turns[i].now >= last + Sleep(p.bank, Rate(percent))
      && Slept(Look(p, turns[i]), turns[i].now, turns, percent, i + 1)
  }

  /** Reading the counters pays off the time that passed. */
  lemma ReadRepays(p: Pace, t: Turn, percent: nat)
    requires 1 <= percent < UNLIMITED && t.percent == percent && p.bank < 0.0
    requires p.engine.Some? && t.sample.Some? && Total(t.sample.value) == p.engine.value
    requires Due(p, t.now) && p.bank >= -MAX_DEBT
    ensures var q := Look(p, t);
      && q.at == t.now && q.engine == p.engine && q.bank >= p.bank
      && (q.bank < 0.0 ==> Owed(q.bank, percent) == Owed(p.bank, percent) - (t.now - p.at) as real)
      && (Owed(p.bank, percent) <= (t.now - p.at) as real ==> q.bank >= 0.0)
  {
    var r, w := Rate(percent), (t.now - p.at) as real;
    assert Balance(p, t) == p.bank + r * w;
    Repaid(-p.bank, r, w);
    assert -p.bank - r * w == -(p.bank + r * w);
  }

  lemma Repaid(debt: real, rate: real, wall: real)
    requires rate > 0.0 && wall >= 0.0
    ensures (debt - rate * wall) / rate == debt / rate - wall
    ensures debt / rate <= wall ==> debt <= rate * wall
    ensures rate * wall >= 0.0
  {
    var q := debt / rate;
    assert q * rate == debt;
    assert debt - rate * wall == (q - wall) * rate;
    assert q <= wall ==> q * rate <= wall * rate;
  }

  /** A sleep covers its debt to within a nanosecond, except where it is cut to the longest. */
  lemma SleepCovers(bank: real, percent: nat)
    requires bank < 0.0 && percent >= 1
    ensures var owed, ns := Owed(bank, percent), Sleep(bank, Rate(percent));
      && (owed >= 200_000.0 ==> ns >= SAMPLE_HELD)
      && (owed >= 2_000_000.0 ==> ns == MAX_SLEEP)
      && (200_000.0 <= owed < 2_000_000.0 ==> ns as real > owed - 1.0)
  {
    var owed := Owed(bank, percent);
    assert owed.Floor as real <= owed < owed.Floor as real + 1.0;
  }

  /** A state a held call can be in between turns, `last` being the time of the turn before. */
  ghost predicate Holding(p: Pace, last: nat, turns: seq<Turn>, percent: nat, i: nat) {
    && i <= |turns| && Idle(p, turns, percent) && Slept(p, last, turns, percent, i)
    && -MAX_DEBT <= p.bank < 0.0 && p.at <= last
  }

  /** The next turn reads the counters, or leaves everything as it was. */
  lemma NextTurn(p: Pace, last: nat, turns: seq<Turn>, percent: nat, i: nat)
    requires Holding(p, last, turns, percent, i) && i < |turns|
    ensures var t := turns[i]; var q := Look(p, t);
      && t.now >= last + Sleep(p.bank, Rate(percent))
      && (Waits(p, t) ==> Holding(q, t.now, turns, percent, i + 1))
      && (t.now - p.at < SAMPLE_HELD ==> q == p)
      && (t.now - p.at >= SAMPLE_HELD ==>
            && (Waits(p, t) ==>
                  q.at == t.now && Owed(q.bank, percent) == Owed(p.bank, percent) - (t.now - p.at) as real)
            && (Owed(p.bank, percent) <= (t.now - p.at) as real ==> !Waits(p, t)))
  {
    var t := turns[i];
    if t.now - p.at >= SAMPLE_HELD {
      ReadRepays(p, t, percent);
    }
  }

  /** Owing little: two sleeps are enough time to read, and a read is enough to pay. */
  lemma SmallDebt(p: Pace, last: nat, turns: seq<Turn>, percent: nat, i: nat)
    requires Holding(p, last, turns, percent, i) && Owed(p.bank, percent) <= 200_000.0
    ensures TurnsHeld(p, turns, i) <= 1
    ensures last - p.at >= MIN_SLEEP ==> TurnsHeld(p, turns, i) == 0
    decreases if last - p.at >= MIN_SLEEP then 0 else 1
  {
    if i < |turns| {
      NextTurn(p, last, turns, percent, i);
      if turns[i].now - p.at < SAMPLE_HELD && Waits(p, turns[i]) {
        SmallDebt(p, turns[i].now, turns, percent, i + 1);
      }
    }
  }

  /** Owing less than the longest sleep: one read leaves next to nothing. */
  lemma MediumDebt(p: Pace, last: nat, turns: seq<Turn>, percent: nat, i: nat)
    requires Holding(p, last, turns, percent, i) && Owed(p.bank, percent) < 2_000_000.0
    ensures TurnsHeld(p, turns, i) <= 2
  {
    if Owed(p.bank, percent) <= 200_000.0 {
      SmallDebt(p, last, turns, percent, i);
    } else if i < |turns| {
      SleepCovers(p.bank, percent);
      NextTurn(p, last, turns, percent, i);
      if Waits(p, turns[i]) {
        SmallDebt(Look(p, turns[i]), turns[i].now, turns, percent, i + 1);
      }
    }
  }

  /** Each longest sleep takes that much off the rest. */
  lemma {:induction false} AnyDebt(p: Pace, last: nat, turns: seq<Turn>, percent: nat, i: nat, k: nat)
    requires Holding(p, last, turns, percent, i) && Owed(p.bank, percent) < 2_000_000.0 * (k + 1) as real
    ensures TurnsHeld(p, turns, i) <= k + 2
    decreases k
  {
    if Owed(p.bank, percent) < 2_000_000.0 {
      MediumDebt(p, last, turns, percent, i);
    } else if i < |turns| {
      SleepCovers(p.bank, percent);
      NextTurn(p, last, turns, percent, i);
      if Waits(p, turns[i]) {
        AnyDebt(Look(p, turns[i]), turns[i].now, turns, percent, i + 1, k - 1);
      }
    }
  }

  lemma DeepestDebt(bank: real, percent: nat)
    requires percent >= 1 && -MAX_DEBT <= bank < 0.0
    ensures Owed(bank, percent) < 2_000_000.0 * (5000 / percent + 1) as real
  {
    var r, q := Rate(percent), 5000 / percent + 1;
    assert q * percent > 5000;
    assert (q * percent) as real == q as real * percent as real;
    assert 2_000_000.0 * q as real * r == 20_000.0 * (q * percent) as real;
    Divides(-bank, r, 2_000_000.0 * q as real);
  }

  lemma Divides(x: real, r: real, y: real)
    requires r > 0.0 && x < y * r
    ensures x / r < y
  {
    var q := x / r;
    assert q * r == x;
    assert q >= y ==> q * r >= y * r;
  }

  /** A guest that stops using the card is let through: however deep its debt and however late the
      wake-ups, it is held for at most 5000 / percent + 2 more turns. */
  lemma HeldGuestIsLetThrough(p: Pace, last: nat, turns: seq<Turn>, percent: nat)
    requires Holding(p, last, turns, percent, 0)
    ensures TurnsHeld(p, turns, 0) <= 5000 / percent + 2
  {
    DeepestDebt(p.bank, percent);
    AnyDebt(p, last, turns, percent, 0, 5000 / percent);
  }
}
